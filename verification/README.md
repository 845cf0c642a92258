# Verified models of the levinboot core

levinboot is a boot loader for the RK3399. This project models the parts of it that are
algorithms or protocols, and proves that they do what they are for:

- **Decompression.** `LzCopy` (word copies), `ZstdExec` (sequence execution in place) and
  `ZstdMeaning` (where everything is in its output), `Fse` and `FseDist` (finite state entropy
  tables and the distributions they are built from), `ZstdTables` and `ZstdDefaults` (the tables
  of sequences), `BackBits`, `ZstdSeq` and `ZstdPack` (sequence decoding), `ZstdRegister` (what the
  size of the register does to it), `ZstdBlock` (all of that together, for the sequences of a
  block), `ZstdWriter` (a writer whose strings are read back), `ZstdHuff` and `ZstdLits` (Huffman
  coded literals), all after RFC 8878; `Canon`, `CanonPrefix`, `InflateTable` and `InflateBlock`
  (Huffman blocks) with `InflateStandard` (what was written for them) after RFC 1951; `Xxh` (the
  streaming checksum).
- **Memory mapping.** `Mmu` (VMSAv8-64 translation tables: mapping and unmapping).
- **Scheduling.** `RunQueue` (wait lists and the run queue), `Wakeup` (sleeping until a value
  changes), `BootCue` (whose turn it is to load a payload), `DramSync` (the two threads that train
  the memory channels).
- **NVMe.** `Nvme` (queues, against any controller that conforms to NVMe 1.3), `NvmeFate` (what
  becomes of one request) and `Prp` (the lists that describe a buffer).
- **Transformations.** `Fdt` (the rewrite of a device tree, after the Devicetree Specification),
  `FdtNodes` (what a reader finds in the rewritten tree) and `Rpn` (expressions with macros).

`Basics` and `Bits` hold notions that several of them share: powers of two, shifts and masks of
numbers, byte strings as little-endian numbers, and fields of bits in them.

## How the source is modelled

Memory is an array of bytes whose indices are addresses; integers are unbounded, and where the
width of a variable matters the truncation is written out (the 64-bit registers of `BackBits`,
the `u8` shift of `LzCopy`, the 32-bit `isize` of `InflateBlock`). Code that updates its
variables, arrays or structures is a method with loops, or a class; each is proved against a
function that says what it computes, and lemmas about that function say what this is good for. A
failing `check` is a result of its own; an `assert` of the source is proved to hold, except where
noted below.

Code that runs on several processors is a transition system: a state, the actions that are
possible in it, and what each does. One action is one access to shared memory, in a
sequentially consistent order. The results are about every run, that is every sequence of
possible actions of any number of agents.

Sizes that are constants in the source and do not matter for the proof are parameters: the depth
of a Huffman table (11), the longest codeword (15), a register's width (32), the page size of a
PRP list (4096), the number of frequency rounds (2).

## What turned out not to hold

Each of these has a lemma or method that shows it happen, and one that says exactly when it does.

- The addresses of the initial RAM disk in /chosen are written as 32-bit numbers, so an address from
  4 GiB on loses its high half even if it has two cells (`Fdt.InitrdTruncated`). They read back
  exactly if both are below 4 GiB (`Fdt.InitrdReadsBack`).
- Without `#address-cells` an initial RAM disk makes the insertion into /chosen run away: on a tree
  of a root and an empty /chosen with eleven words of room (`Fdt.RanAwayTree`), and exactly under
  the condition of `Fdt.NoAddressCells` and `Fdt.Transformed`, which counts the room up to the
  insertion.
- Reading a distribution may write one element beyond the number of symbols (line 71 of
  compression/zstd_fse.c admits it). compression/zstd_literals.c:14-17 passes twelve elements for
  twelve symbols; the bytes 0x10 0xfe 0x01 then write the thirteenth (`FseDist.TwelveWeightsSpill`).
  `FseDist.DecodeDistribution` says when, `FseDist.SpareSuffices` that one spare element is enough and
  that such an input is rejected in the end.
- The assertion in line 137 of compression/zstd_fse.c fails for the last state of a symbol that
  holds the whole table, and for no other (`Fse.BaseAssertion`). A distribution of that kind passes
  the checks: the bytes 0xf0 0x03 are one (`FseDist.WholeTableInput`). `Fse.BuildTable` and
  `ZstdTables.DecodingTable.Handle` have it as a case of its own.
- construct_codes accepts incomplete codes, and then not every bit string begins with a codeword
  (`CanonPrefix.AssignedWhere` says which do). The test that should end the search for an overlong
  codeword (lines 445 and 495 of compression/inflate.c) never holds, so the search reads beyond
  the offsets (`InflateTable.SearchGoesBeyond`); an unused entry of the table is taken for a symbol of
  ten bits (`InflateTable.FillerIsTaken`). `InflateTable.LookUp` has all cases.
- A request of more than 57 bits of the sequence bit string can fail although the string goes on
  (`BackBits.WideRequestFails`): the register has room for whole bytes only. The 64-bit load then
  reports an error; the loop over bytes goes on without the bits it needs. `BackBits.FormsAgree`
  says for which widths both are right. `ZstdBlock.WideStream` gives 23 bytes that are three
  sequences and are rejected; `ZstdBlock.StreamThroughRegister` says exactly when that happens, and
  that whatever is accepted is right. With offset codes up to 25 no request is that wide, and the
  register makes no difference (`ZstdRegister.NarrowRunsAgree`).
- Mapping a free range can stop at the overlap check although nothing is mapped there: a table
  that an earlier mapping has left behind is in the way of a bigger block. Mapping a page,
  unmapping it and mapping 2 MiB around it does that (`Mmu.PageTables.PageThenBlock`).
  `Mmu.PageTables.Map` says exactly when it succeeds, stops there, or lacks a table.
- A second buffer of an NVMe transfer is refused if the first one starts at the beginning of a page,
  even if it went to the end of its last page (`Prp.SecondPageRefused`): the test of line 41 of
  lib/nvme_xfer.c compares a rest with a whole page. `Prp.EndsPageWhen` says when it holds.
- An NVMe submission can find a free slot in the ring and no free command ID, as on a queue with
  fewer command IDs than slots (`Nvme.CommandIdsRunOut`; the admin queue of dramstage/blk_nvme.c:99-105
  is one). It leaves the request marked as submitted (`Nvme.Queues.SubmitSingleCommand`).

## Model

| member | source | states |
|---|---|---|
| `LzCopy.ShiftUpValue` | compression/lzcommon.c:78 | shifting a word left by bytes is the shift of its 64-bit value |
| `LzCopy.ShiftDownValue` | compression/lzcommon.c:81 | shifting a word right by bytes is the shift of its value |
| `LzCopy.ShiftLeft` | compression/lzcommon.c:54-70 | the `u8` shift that is left, wrap-around included, is the distance of the two alignments modulo 64 |
| `LzCopy.AlignedApart` | compression/lzcommon.c:18-32 | equal alignments and a destination outside the source range put the pointers a word apart, and both ends are rounded up alike |
| `LzCopy.StartShifting` | compression/lzcommon.c:34-75 | after aligning the destination, `bits` holds exactly the source bytes read and not yet written |
| `LzCopy.ShiftWord` | compression/lzcommon.c:77-81 | one round writes the next eight source bytes and carries the rest over, whatever the overlap |
| `LzCopy.CopyAligned` | compression/lzcommon.c:18-32 | same promise as `Copy`, for equal alignments |
| `LzCopy.CopyShifting` | compression/lzcommon.c:33-88 | same promise as `Copy`, for different alignments |
| `LzCopy.Copy` | compression/lzcommon.c:13-88 | for every pair of alignments and every length from 8 on, destination not in the source range: the bytes are those the source had, and nothing changes outside the destination rounded up to a word |
| `LzCopy.Memcpy` | aarch64/string.S:44-56 | every prefix that the destination does not overlap is copied; nothing beyond is touched |
| `LzCopy.LiteralCopy` | compression/lzcommon.c:129-135 | the bytes are copied, garbage stays within the reach of one block |
| `LzCopy.MatchExtendPeriodic` | compression/lzcommon.c:137-147 | a match repeats: every appended byte equals the one `dist` before it |
| `LzCopy.PeriodicUnique` | compression/lzcommon.c:137-147 | there is only one such continuation |
| `LzCopy.MatchBytes` | compression/lzcommon.c:137-147 | after the copy every byte of the match equals the one `dist` before it, for all three ways of copying |
| `LzCopy.MatchCopy` | compression/lzcommon.c:137-147 | the output is the old one with the match appended |
| `ZstdExec.RunGrows` | compression/zstd.c:202-238 | the plain executor of section 3.1.1.4 of RFC 8878 adds at least all literals |
| `ZstdExec.BoundedIsRunThatFits` | compression/zstd.c:212-218 | with the space checks a run finishes exactly with the result of the plain executor, if that fits; it fails only where that fails |
| `ZstdExec.TakeLiterals` | compression/zstd.c:214-215 | literals move to the output and the unread ones, parked behind it in the same buffer, stay intact |
| `ZstdExec.AppendMatch` | compression/zstd.c:224-225 | a match is appended and no unread literal is overwritten |
| `ZstdExec.ExecuteOne` | compression/zstd.c:207-225 | one sequence: output, unread literals and what is left to do agree with the plain executor, errors included; what that executor does is said by `ZstdMeaning` |
| `ZstdExec.ExecuteSome` | compression/zstd.c:206-232 | a buffer of packed sequences, with more to come |
| `ZstdExec.FinishLiterals` | compression/zstd.c:236-237 | the last literals are appended, even where they overlap their place in the buffer |
| `ZstdExec.Execute` | compression/zstd.c:166-238 | executing any list of packed sequences in place gives what the executor with a separate literal buffer gives, and writes nothing outside the output buffer and its block of slack |
| `ZstdMeaning.RunAccepts` | compression/zstd.c:210-218 | the executor has an output exactly if, for every sequence, the literals of it and of those before are there, and its offset does not reach beyond what is before its match: window, these literals and the matches before |
| `ZstdMeaning.RunOutput` | compression/zstd.c:206-238 | the output is the one string that begins with the window and has, behind the copies and matches of those before, the literals of each sequence followed by bytes that equal those `dist` before them, and the literals that are left at the end |
| `ZstdMeaning.OutputSplit` | compression/zstd.c:206-225 | that string for a list is that string for the rest of the list after its first sequence |
| `ZstdMeaning.BoundedMeans` | compression/zstd.c:206-238 | with a limited buffer it is the same string exactly if it fits; more space is asked for exactly if there is a first sequence that has its literals and for which the buffer is too small |
| `ZstdMeaning.SectionMeans` | compression/zstd.c:199-238 | so the output of a sequences section is that string |
| `Mmu.WalkThrough` | lib/mmu.c:56-78 | a table is on the walk of every page it covers |
| `Mmu.StopElsewhere` | lib/mmu.c:56-78 | changing an entry changes no walk outside the pages it covers |
| `Mmu.SetEntryTree` | aarch64/mmu_asm.S:94-107 | writing a block, page or empty entry keeps the tables a tree |
| `Mmu.LinkTableTree` | aarch64/mmu_asm.S:162-168 | linking a cleared table keeps the tables a tree |
| `Mmu.ChunkOutput` | aarch64/mmu_asm.S:102-129 | a block entry sends every page in it to its own frame |
| `Mmu.WriteProgress` | aarch64/mmu_asm.S:94-132 | writing the entry at `addr` carries the mapping on by that entry and nothing else |
| `Mmu.LinkProgress` | aarch64/mmu_asm.S:162-168 | adding a table changes no translation and gets in the way of no block of the request |
| `Mmu.CursorChunk` | aarch64/mmu_asm.S:62-92 | the alignment and length tests find the largest entry that fits the request at `addr` |
| `Mmu.ReturnUp` | aarch64/mmu_asm.S:181-196 | at the end of a table the level above is at an entry boundary too, and the top level is never left |
| `Mmu.GoUp` | aarch64/mmu_asm.S:140-196 | going back up ends at a level whose table pointer is right for the next address |
| `Mmu.SharedWalk` | lib/mmu.c:56-78 | pages under one entry share the tables above and right below it |
| `Mmu.LinkCounted` | aarch64/mmu_asm.S:162-168 | a table is taken only for an entry that needs one and has none |
| `Mmu.AllLinked` | aarch64/mmu_asm.S:94-168 | where a mapping is done or stops, exactly the tables that were missing before have been linked |
| `Mmu.OnlyOne` | aarch64/mmu_asm.S:40-275 | what is in the way and how many tables are left decide between the three results |
| `Mmu.EmptyTableInTheWay` | aarch64/mmu_asm.S:95-101 | a state in which nothing is mapped and yet a block mapping meets a table |
| `Mmu.PageTables.StoreEntry` | aarch64/mmu_asm.S:102-107 | one entry changes |
| `Mmu.PageTables.AddTable` | aarch64/mmu_asm.S:255-271 | the next table is cleared, linked and put into use |
| `Mmu.PageTables.WriteHere` | aarch64/mmu_asm.S:94-151 | one entry further, with the table pointers right for the next address |
| `Mmu.PageTables.GoDeeper` | aarch64/mmu_asm.S:152-168 | one level down, adding a table if there is none; fails only when no table is left and one more is needed |
| `Mmu.PageTables.MapAll` | aarch64/mmu_asm.S:40-275 | the loop, with the count of tables |
| `Mmu.PageTables.Map` | aarch64/mmu_asm.S:40-275 | every page of a free range walks to its own frame with the attributes given, every other walk stays; it succeeds exactly if no table is in the way and those it lacks are left, and takes so many; it stops at a table in the way exactly if there are tables up to there |
| `Mmu.UnmapDecide` | lib/mmu.c:181-186 | the tests of `unmap_one` hold at the level the range was mapped at, and at no level above |
| `Mmu.RoundDown` | lib/mmu.c:187-190 | what is cleared at one go ends with a whole entry |
| `Mmu.Clip` | lib/mmu.c:210-211 | clipping keeps to the range of the table below |
| `Mmu.PageTables.ClearRun` | lib/mmu.c:191-197 | every entry of the run is of the expected type and is cleared |
| `Mmu.PageTables.ClearWhole` | lib/mmu.c:186-205 | whole entries are cleared, and the next page starts an entry again |
| `Mmu.PageTables.UnmapOne` | lib/mmu.c:179-215 | progress on one table without any assertion failing |
| `Mmu.PageTables.Unmap` | lib/mmu.c:217-220 | an identity mapped range is unmapped with its tables left in place, everything else stays, no assertion fails, it terminates |
| `Mmu.PageTables.MapThenUnmap` | dram/ddrinit.c:253-272 | mapping and unmapping a range gives back the old translation of every page, but the tables it took stay; it succeeds exactly if `Map` does |
| `Mmu.PageTables.MapUnmapMap` | dram/ddrinit.c:253-272 | a range mapped by small entries and unmapped cannot be mapped by bigger ones; if it begins the bigger range, that stops at the table in the way |
| `Mmu.PageTables.PageThenBlock` | dram/ddrinit.c:253-272 | with three tables left, a page is mapped and unmapped, and mapping the 2 MiB around it stops at the overlap check |
| `Fse.OrbitInjective` | compression/zstd_fse.c:114-117 | an odd step meets no position twice within a round |
| `Fse.OrbitReturns` | compression/zstd_fse.c:114-120 | after a round the position is 0 again |
| `Fse.FullCycle` | compression/zstd_fse.c:112-120 | the positions that are not reserved are all visited |
| `Fse.StepOdd` | compression/zstd_fse.c:88 | the step is odd |
| `Fse.StepIsStandard` | compression/zstd_fse.c:88 | and it is that of section 4.1.1 of RFC 8878 |
| `Fse.StateWithin` | compression/zstd_fse.c:129-136 | every interval [base, base + 2^bits) lies in the state space |
| `Fse.CoversOwner` | compression/zstd_fse.c:129-136 | the intervals of a symbol with c states do not overlap |
| `Fse.Owner` | compression/zstd_fse.c:129-136 | and leave no gap: every state is in one of them |
| `Fse.BaseAssertion` | compression/zstd_fse.c:137 | the assertion fails for exactly one state of exactly those symbols that hold the whole table |
| `Fse.AllHold` | compression/zstd_fse.c:137 | if it holds for every state of a table, no symbol holds all of them |
| `Fse.EntryFields` | compression/zstd_fse.c:138 | the three fields of an entry can be read back |
| `Fse.PlaceLow` | compression/zstd_fse.c:89-95 | symbols "less than one" get the last states, in order |
| `Fse.NextPosition` | compression/zstd_fse.c:114-117 | the next position that is not reserved, and no other is passed over |
| `Fse.PlaceSymbol` | compression/zstd_fse.c:112-118 | a symbol gets its number of new states |
| `Fse.SpreadSymbols` | compression/zstd_fse.c:96-120 | every symbol gets exactly its number of states and the position is 0 at the end |
| `Fse.StateEntry` | compression/zstd_fse.c:125-138 | the entry of the counter-th state of a symbol, unless the assertion fails |
| `Fse.FillStates` | compression/zstd_fse.c:121-139 | the table is rewritten in place, each state by the rank of its symbol, unless the assertion fails |
| `Fse.BuildTable` | compression/zstd_fse.c:85-141 | a distribution that sums up to the table size yields the table of the standard; the assertion fails exactly if one symbol holds all states |
| `Fse.BuiltUnique` | compression/zstd_fse.c:85-141 | there is one such table for a distribution: the order of the states is that of the standard |
| `Fse.TileReaches` | compression/zstd_fse.c:85-141 | in that table every symbol has a state that leads to any given state |
| `Fse.TileUnique` | compression/zstd_fse.c:85-141 | and only one: the intervals of a symbol's states tile the state space |
| `Fse.StateStaysInside` | compression/zstd_fse.c:85-141 | whatever bits are read, the next state is in the table |
| `FseDist.ReadTruncBounds` | compression/zstd_fse.c:27-48 | a value that is read is below its range |
| `FseDist.TruncRoundTrip` | compression/zstd_fse.c:9-48 | reading undoes writing in truncated binary |
| `FseDist.ZerosRoundTrip` | compression/zstd_fse.c:61-73 | the same for runs of zero probabilities |
| `FseDist.ReadSymbolsTotal` | compression/zstd_fse.c:26-76 | slots given out and slots left always add up to the table size, and the count of those left never underflows |
| `FseDist.ReadDistributionBuilds` | compression/zstd_fse.c:17-77 | every distribution that is read sums up to 2^log and is fit for table building; the assertion fails on it exactly if one symbol holds all of it |
| `FseDist.DistributionRoundTrip` | compression/zstd_fse.c:17-77 | reading gives back the distribution that was written, whatever follows it |
| `FseDist.WholeTableInput` | compression/zstd_fse.c:17-77 | two bytes that are read as a distribution in which one symbol holds the whole table |
| `FseDist.SpillIsRejected` | compression/zstd_fse.c:61-76 | a run of zeros that goes beyond the symbols makes the input invalid |
| `FseDist.SpareSuffices` | compression/zstd_fse.c:61-76 | only the element after the last symbol is ever written by it, so with one to spare nothing spills |
| `FseDist.TwelveWeightsSpill` | compression/zstd_literals.c:14-17 | three bytes that write a thirteenth of twelve weights |
| `FseDist.Fetch` | compression/zstd_fse.c:31-35 | the reservoir gets the bits needed, if the input has them, and never overflows 32 bits |
| `FseDist.TakeBits` | compression/zstd_fse.c:37-38 | the bits taken are the next ones of the input |
| `FseDist.DecodeValue` | compression/zstd_fse.c:27-48 | one value, or the failure, as the specification reads it |
| `FseDist.DecodeZeros` | compression/zstd_fse.c:61-73 | the run of zero probabilities, or the failure |
| `FseDist.DecodeSymbol` | compression/zstd_fse.c:27-74 | one symbol with what follows it, or where it writes too far; the assertion of line 52 holds |
| `FseDist.DecodeDistribution` | compression/zstd_fse.c:17-77 | succeeds exactly if the input holds a distribution, with its weights, its log and the bytes it takes; writes beyond the buffer exactly if a run of zeros spills |
| `BackBits.HighestBit` | compression/zstd_sequences.c:64-67 | the string ends below the highest set bit of its last byte |
| `BackBits.RoomFillsCapacity` | compression/zstd_sequences.c:29 | how far a refill gets depends on the unread bits only |
| `BackBits.RefillWord` | compression/zstd_sequences.c:28-35 | the unread bits stay the same, and it succeeds exactly if there are enough and the register can take them |
| `BackBits.PushedUnread` | compression/zstd_sequences.c:39-42 | pushing bytes keeps the register a view of the string |
| `BackBits.PushBytes` | compression/zstd_sequences.c:39-42 | how many bytes the loop pushes |
| `BackBits.RefillBytes` | compression/zstd_sequences.c:37-43 | the same for the loop over bytes; where the register is too small the bits it should have are not there |
| `BackBits.Extract` | compression/zstd_sequences.c:50-57 | the three fields are cut off the high end of the unread bits, in spite of 32-bit temporaries |
| `BackBits.DecodeWord` | compression/zstd_sequences.c:45-59 | one extraction with the 64-bit load |
| `BackBits.DecodeBytes` | compression/zstd_sequences.c:45-59 | one extraction with the loop over bytes, and exactly when the register lacks the bits for it |
| `BackBits.RunWords` | compression/zstd_sequences.c:27-59 | any number of extractions with the 64-bit load reads what the specification reads, up to the first request that is too wide for the register |
| `BackBits.RunBytes` | compression/zstd_sequences.c:27-59 | so does the loop over bytes, and it loses the bits of the first request that is too wide |
| `BackBits.FormsAgree` | compression/zstd_sequences.c:27-59 | both agree with plain reading exactly if no request within the string is wider than the register can be filled up to when it comes; otherwise the first reports an error where the string goes on, and the second lacks the bits |
| `BackBits.NarrowIsSafe` | compression/zstd_sequences.c:27-59 | so both are right as long as requests have up to 57 bits |
| `BackBits.WideRequestFails` | compression/zstd_sequences.c:27-44 | requests are safe for all strings exactly up to 57 bits |
| `ZstdTables.LengthSettingsGood` | compression/zstd.c:87-100 | the predefined distribution sums up to its table size |
| `ZstdTables.CopySettingsGood` | compression/zstd.c:102-113 | likewise |
| `ZstdTables.DistSettingsGood` | compression/zstd.c:115-125 | likewise |
| `ZstdDefaults.Distributions` | compression/zstd.c:87-125 | the number of states of every symbol is that of section 3.1.1.3.2.2 of RFC 8878 |
| `ZstdDefaults.CopyTable` | compression/zstd.c:102-113 | states 0 to 3 and 60 to 63 of the table for literal lengths are those of appendix A of RFC 8878: symbol, bits and base |
| `ZstdDefaults.LengthTable` | compression/zstd.c:87-100 | likewise states 0 to 3 and 57 to 63 of the one for match lengths |
| `ZstdDefaults.DistTable` | compression/zstd.c:115-125 | likewise states 0, 1 and 27 to 31 of the one for offsets |
| `ZstdTables.BuiltIsGood` | compression/zstd.c:82-84 | a table that was built leads from every state to a state of its own |
| `ZstdTables.RleIsGood` | compression/zstd.c:62-69 | so does the table with one entry |
| `ZstdTables.TableForUnique` | compression/zstd.c:51-85 | mode, input and the table before determine the new table |
| `ZstdTables.DecodingTable.constructor` | compression/zstd.c:49 | there is no table at first |
| `ZstdTables.DecodingTable.Build` | compression/zstd.c:82-84 | the table of the weights given exactly if the accuracy is allowed and no symbol holds all states |
| `ZstdTables.DecodingTable.HandleFse` | compression/zstd.c:70-84 | the mode with a distribution |
| `ZstdTables.DecodingTable.HandleRle` | compression/zstd.c:62-69 | the mode with one symbol |
| `ZstdTables.DecodingTable.Handle` | compression/zstd.c:51-85 | in all four modes the table is either good and the one the mode asks for, or the input is rejected, exactly if it is empty, its symbol too high, its distribution bad or too fine, or there was no table; the assertion fails exactly if one symbol holds all states |
| `ZstdPack.PackRoundTrip` | compression/zstd_sequences.c:122-123 | unpacking gives back copy, length and distance, and they fit 64 bits |
| `ZstdPack.Unpack` | compression/zstd.c:207-209 | an unpacked match has at least length 3 |
| `ZstdPack.UnpackAllAppend` | compression/zstd.c:206-209 | sequences are unpacked one by one |
| `ZstdPack.ResolveKeeps` | compression/zstd_sequences.c:87-125 | resolving an offset value keeps all offsets above zero, except in the one case that is rejected |
| `ZstdPack.FreshOffset` | compression/zstd_sequences.c:89-98 | section 3.1.1.5 of RFC 8878: a new offset, which is the value less 3 or the latest offset less 1, pushes down the two latest |
| `ZstdPack.RecentOffset` | compression/zstd_sequences.c:99-118 | a repeated offset is the one of that number, counted from the second if there are no literals; it moves to the front, the three stay the same and the others keep their order |
| `ZstdPack.FreshRun` | compression/zstd_sequences.c:89-120 | over any run of new offsets the history is the latest three of them and of those before, latest first |
| `ZstdPack.RunHistory` | compression/zstd_sequences.c:87-125 | over any run the history begins with the last offset and holds only offsets used or there before |
| `ZstdPack.PushedDown` | compression/zstd_sequences.c:87-120 | with the history 1, 4, 8, the values 13 and 2 mean 10 and then 1, and leave 1, 10, 4 |
| `ZstdSeq.CodesMeet` | compression/zstd_sequences.c:8-25 | the values of a code begin where those of the code before end |
| `ZstdSeq.CodesFit` | compression/zstd_sequences.c:144-151 | literal and match lengths stay below 2^17: the assertion of line 122 holds |
| `ZstdWriter.CodesAre` | compression/zstd_sequences.c:8-25 | the codes have the bits of the tables of section 3.1.1.3.2.1.1 of RFC 8878, and each begins where the one before it ends |
| `ZstdWriter.CopyFound` | compression/zstd_sequences.c:8-15 | every number below 2^17 has a code for literal lengths |
| `ZstdWriter.LengthFound` | compression/zstd_sequences.c:16-25 | and one for match lengths |
| `ZstdSeq.NextEntries` | compression/zstd_sequences.c:138-141 | the next states are inside their tables |
| `ZstdSeq.ReadStates` | compression/zstd_sequences.c:135-141 | the specification of a state update |
| `ZstdSeq.ReadValues` | compression/zstd_sequences.c:142-151 | the specification of the three values and their bounds |
| `ZstdSeq.ReadOne` | compression/zstd_sequences.c:135-152 | the specification of one sequence: states stay inside, offsets above zero |
| `ZstdSeq.RunKeepsStates` | compression/zstd_sequences.c:127-158 | over any run every state stays inside its table and every repeat offset above zero |
| `ZstdRegister.OneWithRegister` | compression/zstd_sequences.c:134-152 | with the register a sequence is the same, or none exactly if the register lacks the bits of its values |
| `ZstdRegister.RunWithRegister` | compression/zstd_sequences.c:127-157 | for all codes: what is decoded with the register is what the string says, or nothing exactly if plain reading comes to such a sequence |
| `ZstdRegister.NarrowRunsAgree` | compression/zstd_sequences.c:27-59 | with offset codes up to 25 that never happens |
| `ZstdRegister.WideSequences` | compression/zstd_sequences.c:127-157 | with offset code 27 and 16 bits for both lengths, 177 bits are three sequences whatever they are, and none with the register |
| `ZstdSeq.SequencesState.InitSequences` | compression/zstd_sequences.c:61-85 | succeeds exactly if the string has an end and enough bits; the first states are read in the order copy, distance, length |
| `ZstdSeq.SequencesState.PackSequence` | compression/zstd_sequences.c:87-125 | the history and the packed sequence are those of `Resolve`, whose rules are `FreshOffset` and `RecentOffset` of `ZstdPack`; it fails exactly for offset 0 |
| `ZstdSeq.SequencesState.DecodeOne` | compression/zstd_sequences.c:135-152 | one round of the loop is one sequence of the specification |
| `ZstdSeq.SequencesState.DecodeSequences` | compression/zstd_sequences.c:127-158 | n sequences of the specification, or its failure; the state that is saved is where the next call goes on |
| `ZstdWriter.StatesBack` | compression/zstd_sequences.c:135-141 | what leads to the next states of literal lengths, match lengths and offsets, written so that it is read in this order, is read as these states |
| `ZstdWriter.ValuesBack` | compression/zstd_sequences.c:142-151 | the extra bits of offset, match length and literal length, in this order, are read as the values they were written for |
| `ZstdWriter.RunBack` | compression/zstd_sequences.c:127-152 | what is written for any run of sequences is read as these values, one after the other, to the last bit |
| `ZstdWriter.StreamBack` | compression/zstd_sequences.c:61-158 | a byte string with the first states, the runs and the bit that marks the end is decoded to the sequences it was written for, with the offsets and the history they mean |
| `ZstdWriter.EveryRun` | compression/zstd_sequences.c:61-158 | for any values that the tables have states for there is such a string |
| `ZstdWriter.BuiltFull` | compression/zstd_fse.c:85-141 | a table built from a distribution has states for every symbol of it, whatever state comes next |
| `ZstdWriter.PredefinedOffer` | compression/zstd.c:87-125 | the predefined tables have states for all values that have codes |
| `ZstdBlock.SettingsSuit` | compression/zstd.c:87-125 | the three settings of the source give tables that sequences can be decoded with |
| `ZstdBlock.ReadManySplit` | compression/zstd.c:202-234 | sequences can be decoded in portions |
| `ZstdBlock.OutcomesJoin` | compression/zstd.c:202-234 | executing portion after portion comes to the same as executing all |
| `ZstdBlock.OneBuffer` | compression/zstd.c:203-233 | decoding and executing up to 128 sequences keeps the outcome of the whole |
| `ZstdBlock.AllBuffers` | compression/zstd.c:202-234 | so does the loop over all of them |
| `ZstdBlock.RunSequences` | compression/zstd.c:199-238 | it goes well exactly if all sequences can be decoded, no bits are left over and the executor accepts them with an output that fits, which is then the output |
| `ZstdBlock.AcceptedIsPlain` | compression/zstd.c:199-238 | that is, exactly if the separate-buffer executor has an output and it fits |
| `ZstdBlock.SetUpTables` | compression/zstd.c:192-197 | the three tables one after the other, each from what those before left of the input, or which is refused; the objects hold these tables |
| `ZstdBlock.ThreeTables` | compression/zstd.c:192-197 | tables that were set up are good for decoding sequences |
| `ZstdBlock.Begin` | compression/zstd.c:199-200 | the first states, and what is then to be decoded |
| `ZstdBlock.StreamThroughRegister` | compression/zstd.c:199-238 | the sequences read through the register are those of the string, or none exactly if it comes to one whose bits the register lacks |
| `ZstdBlock.WideStream` | compression/zstd.c:199-238 | 23 bytes, of which only the last matters, that are three sequences and are not decoded |
| `ZstdBlock.RunStream` | compression/zstd.c:199-238 | the same from the bytes after the tables |
| `ZstdBlock.SequencesSection` | compression/zstd.c:192-238 | from the modes and bytes of a block to its output: accepted exactly if the tables can be set up, the bit string decodes to its end through the register and the sequences execute within the room; the sequences are then those of the string read plainly, the output and the repeat offsets those they make, and the three objects hold the tables for the next block |
| `RunQueue.ChainOntoList` | lib/sched.c:14-24 | a chain whose end points to a list makes a list |
| `RunQueue.ReverseLists` | lib/sched.c:45-51 | one round moves one thread from the list to its reverse |
| `RunQueue.AttachQueue` | lib/sched.c:42-52 | writing through the tail pointer appends the reversed list, be the queue empty or not |
| `RunQueue.QueueKept` | lib/sched.c:14-20 | the step keeps all lists well formed and disjoint |
| `RunQueue.StoreKept` | lib/sched.c:21-22 | likewise for the store to `last->next` |
| `RunQueue.CasKept` | lib/sched.c:23 | likewise for the compare-and-exchange, failing (also spuriously) or not |
| `RunQueue.TakeKept` | lib/sched.c:30-34 | likewise for the exchange of another list's head |
| `RunQueue.AdvanceKept` | lib/sched.c:35-36 | likewise for the walk to the end of the list |
| `RunQueue.ExchangeKept` | lib/sched.c:39-45 | likewise for the exchange of the fresh list's head |
| `RunQueue.UnqueueKept` | lib/sched.c:46-53 | likewise for reversing and attaching |
| `RunQueue.PopKept` | lib/sched.c:54-58 | likewise for taking the first thread, the tail pointer included |
| `RunQueue.FifoKept` | lib/sched.c:14-58 | every step keeps the order: gone, queued, being moved, fresh |
| `RunQueue.StepKeepsInv` | lib/sched.c:14-58 | every step of every agent keeps the whole invariant |
| `RunQueue.RunIsFifo` | lib/sched.c:14-58 | over all runs threads leave in the order they came, none is lost, none is in two places |
| `Wakeup.StepKeepsInv` | lib/sched.c:30-37 | whoever sleeps on another value has a recheck or a flush coming |
| `Wakeup.NoLostWakeup` | lib/sched.c:72-90 | over all runs, for who is still on the list: when nobody is between store and flush or enqueue and recheck, every sleeper's value is still the expected one |
| `Wakeup.StepKeepsOrder` | lib/sched.c:30-37 | a flush makes the sleepers ready in the order they came, behind those that are; no step changes the order in any other way |
| `Wakeup.RunKeepsOrder` | lib/sched.c:30-90 | over all runs the ready and the sleeping are those who came, in that order, less those dispatched |
| `Wakeup.RunKeepsThreads` | lib/sched.c:30-90 | over all runs a thread is asleep, ready or dispatched as often as it went to sleep: none is lost or doubled |
| `Wakeup.SleeperCame` | lib/sched.c:72-90 | who is on the list waits for what it said when it went to sleep |
| `Wakeup.WokenUp` | lib/sched.c:72-90 | when nothing is going on, a thread whose values have all changed is ready or has been dispatched as often as it slept |
| `Wakeup.RecheckNeeded` | lib/sched.c:76-79 | a run in which only the recheck can wake the sleeper |
| `Canon.RevRev` | compression/inflate.c:57-63 | reversing bits twice changes nothing |
| `Canon.NextReversed` | compression/inflate.c:57-63 | counting up from the high end is adding one to the reversed number; it reports exactly the last one |
| `Canon.FirstCodeUsed` | compression/inflate.c:52-65 | the first code of a length, scaled, is the share taken by all shorter ones |
| `Canon.CountActive` | compression/inflate.c:42-49 | the number of symbols in use |
| `Canon.CodesOfLength` | compression/inflate.c:53-64 | the codes of one length, and where they run out |
| `Canon.RanOut` | compression/inflate.c:60-66 | when codes run out, all symbols have one exactly if the Kraft sum is at most one |
| `Canon.NoneLeft` | compression/inflate.c:66 | equal counts mean that no symbol is left without a code |
| `Canon.ConstructCodes` | compression/inflate.c:41-67 | the final assertion holds exactly if the Kraft sum is at most one, and then every code is the bit-reversed canonical one of section 3.2.2 of RFC 1951 |
| `CanonPrefix.StartEnd` | compression/inflate.c:52-65 | a codeword's share of all strings begins where those before it end |
| `CanonPrefix.Apart` | compression/inflate.c:52-65 | the shares of two symbols do not overlap |
| `CanonPrefix.BeginsWhere` | compression/inflate.c:52-65 | a string begins with a codeword exactly if it is in its share |
| `CanonPrefix.BeginsUnique` | compression/inflate.c:41-67 | at most one codeword begins a string |
| `CanonPrefix.PrefixFree` | compression/inflate.c:41-67 | no codeword begins another |
| `CanonPrefix.BeginsExists` | compression/inflate.c:41-67 | in a complete code every string begins with a codeword |
| `CanonPrefix.AssignedWhere` | compression/inflate.c:41-67 | in any code a string begins with a codeword exactly if, read as a number, it is below the sum of the shares |
| `InflateTable.FillShort` | compression/inflate.c:78-80 | exactly the indices that begin with the codeword get the entry |
| `InflateTable.NoOtherClaim` | compression/inflate.c:73-86 | no two symbols claim the same entry |
| `InflateTable.EnterOne` | compression/inflate.c:74-85 | one symbol is entered or counted as too long |
| `InflateTable.EnterAll` | compression/inflate.c:72-86 | every index leads to its short symbol, is marked as overlong, or keeps the filler exactly if no codeword claims it |
| `InflateTable.SumOffsets` | compression/inflate.c:91-96 | the offsets are the sums of the counts |
| `InflateTable.ListOne` | compression/inflate.c:101-106 | a long codeword goes to its own place; the assertion of line 105 holds |
| `InflateTable.ListLong` | compression/inflate.c:100-110 | all long codewords are listed by length; the assertion of line 109 holds |
| `InflateTable.ConstructDectable` | compression/inflate.c:69-111 | the table, the offsets and the list belong to the code |
| `InflateTable.SearchLength` | compression/inflate.c:437-444 | a codeword of this length is found exactly if the string begins with one |
| `InflateTable.TableSays` | compression/inflate.c:428 | the entry of the register's low bits: a symbol, a search, or the filler |
| `InflateTable.SearchLong` | compression/inflate.c:431-446 | the overlong codeword that begins the string, or how the search goes wrong |
| `InflateTable.LookUp` | compression/inflate.c:428-453 | for all codes: the one symbol whose codeword begins the string, or that its bits are not all there; if no codeword does, exactly when more bits are asked for, the filler is taken for a symbol, or the search leaves the offsets |
| `InflateTable.OneCodeword` | compression/inflate.c:41-67 | a single codeword is a code that is accepted |
| `InflateTable.SearchGoesBeyond` | compression/inflate.c:437-445 | with a codeword of twelve bits, a register that makes the search leave the offsets |
| `InflateTable.FillerIsTaken` | compression/inflate.c:72 | and one that finds the filler |
| `InflateBlock.MoreInputSameToken` | compression/inflate.c:424-543 | a token that could be read stays the same with more input |
| `InflateStandard.LengthsComputed` | compression/inflate.c:728-734 | bases and extra bits of symbols 265 to 284 are those of section 3.2.5 of RFC 1951, `2^(k+3) + j*2^(k+1) + 3` and `k + 1` for the j-th of the k-th four; the base of 285 is 259, one too much |
| `InflateStandard.DistancesComputed` | compression/inflate.c:736-740 | likewise those of the distances |
| `InflateStandard.LengthRead` | compression/inflate.c:463-474 | a length is its base and the extra bits that follow, plus one for symbol 285, which line 520 takes off |
| `InflateStandard.ItemRead` | compression/inflate.c:424-543 | a literal or match written as section 3.2.5 has it, symbols and extra bits in their order, is read as what it says |
| `InflateStandard.ReadWasWritten` | compression/inflate.c:424-543 | and whatever is read has been written so |
| `InflateStandard.PiecesDecoded` | compression/inflate.c:408-561 | whatever is written for a block is decoded to what it expands to; that leaves out matches that go back too far or spell length 258 with symbol 284, which line 519 rejects |
| `InflateStandard.DecodedWasWritten` | compression/inflate.c:408-561 | and whatever is decoded is what something written expands to |
| `InflateStandard.EndRead` | compression/inflate.c:537-540 | the block ends exactly where symbol 256 is written |
| `InflateBlock.TakeSym` | compression/inflate.c:428-453 | the next symbol of the string, if it ends within the input |
| `InflateBlock.TakeLength` | compression/inflate.c:463-474 | the length that `InflateStandard.LengthRead` takes from the table of the standard, or too little input |
| `InflateBlock.Refill` | compression/inflate.c:394-403 | the 32-bit load that ends at the new position keeps the register a view of the string, with 25 bits or all there are |
| `InflateBlock.TakeDist` | compression/inflate.c:475-516 | the distance of the standard, or too little input |
| `InflateBlock.TakeToken` | compression/inflate.c:428-516 | one token of the specification |
| `InflateBlock.DistAtMost` | compression/inflate.c:504-517 | no distance is above 32768, so the window suffices |
| `InflateBlock.CopyMatch` | compression/inflate.c:527-531 | the match is appended and the checksum follows |
| `InflateBlock.EmitMatchBytes` | compression/inflate.c:527-531 | it is the match that the other decompressors append |
| `InflateBlock.WriteToken` | compression/inflate.c:454-540 | a token is written, rejected, or refused for lack of room without any trace |
| `InflateBlock.OneRound` | compression/inflate.c:424-543 | one round of the loop is one step of the specification |
| `InflateBlock.FirstFill` | compression/inflate.c:412-421 | the first fill drops the bits of the first byte that are done with |
| `InflateBlock.Decoder.constructor` | compression/inflate.c:741-744 | the decoder before the first block |
| `InflateBlock.Decoder.Save` | compression/inflate.c:545-559 | bytes consumed and `skip_bits` together name the bit position |
| `InflateBlock.Decoder.HuffBlock` | compression/inflate.c:408-561 | a call goes a number of tokens along the specification and stops where that ends, fails, lacks input or lacks room; what it saves is that state |
| `InflateBlock.EndUnique` | compression/inflate.c:408-561 | there is one state from which a block cannot go on |
| `InflateBlock.OneCall` | compression/inflate.c:408-561 | a call continues where those before have stopped |
| `InflateBlock.DecodeInCalls` | compression/inflate.c:408-561 | calls with growing input and room follow the specification from the first state |
| `InflateBlock.DecodeBlock` | compression/inflate.c:408-561 | the same for the steps of a block, with the bytes consumed; the output size modulo 2^32 follows |
| `InflateBlock.ResumedEqualsWhole` | compression/inflate.c:408-561 | however input and room were divided, a block that is over has consumed as many bytes, with the same bits to skip, output and CRC, as in an uninterrupted decode, or is wrong in both |
| `InflateBlock.RunKeepsCrc` | compression/inflate.c:408-561 | the CRC is always that of the whole output |
| `ZstdHuff.LastWeightUnique` | compression/zstd_literals.c:97-98 | only the weight that is computed can complete the sum to a power of two |
| `ZstdHuff.CompleteWeights` | compression/zstd_literals.c:96-106 | accepts exactly the weights that can be completed within the depth |
| `ZstdHuff.RoundUp` | compression/zstd_literals.c:102-103 | the smallest power of two from the given one on |
| `ZstdHuff.InsertSymbol` | compression/zstd_literals.c:109-121 | one symbol is inserted behind all that are not heavier |
| `ZstdHuff.SortWeights` | compression/zstd_literals.c:108-122 | all symbols, ordered by weight and then by symbol, with their weights |
| `ZstdHuff.RunsFill` | compression/zstd_literals.c:139 | the runs fill the table exactly |
| `ZstdHuff.RunAligned` | compression/zstd_literals.c:132 | every run begins at a multiple of its length |
| `ZstdHuff.FillOne` | compression/zstd_literals.c:126-137 | one run is entered; the assertion of line 132 holds |
| `ZstdHuff.FillTable` | compression/zstd_literals.c:125-139 | all runs are entered one behind the other; the assertion of line 139 holds |
| `ZstdLits.FilledIsPrefix` | compression/zstd_literals.c:124-139 | the table is that of a prefix code: the indices of a symbol are those that begin with its codeword |
| `ZstdLits.TopHead` | compression/zstd_literals.c:155 | the first bits of an index are the next ones of the string |
| `ZstdLits.DecodeIsInverse` | compression/zstd_literals.c:152-166 | reading yields these literals exactly if the bits were written from them |
| `ZstdLits.AcceptedStreams` | compression/zstd_literals.c:143-168 | accepted are exactly the streams that are a 1 followed by the codewords of the literals they yield |
| `ZstdLits.LoadBytes` | compression/zstd_literals.c:158-160 | loading keeps the register a view of the string |
| `ZstdLits.NextLiteral` | compression/zstd_literals.c:155-164 | the next literal, or too little left, although the register is shown with zeros behind its end |
| `ZstdLits.DecodeLiterals` | compression/zstd_literals.c:152-166 | all literals, succeeding exactly if nothing is left |
| `ZstdLits.DecompressLiteralStream` | compression/zstd_literals.c:143-168 | the whole stream, including the search for its end |
| `BootCue.LookKeeps` | dramstage/main.c:186-198 | a thread that looks at the cue keeps the invariant |
| `BootCue.CueUpKeeps` | dramstage/main.c:229-230 | so does cueing the next medium |
| `BootCue.MonitorKeeps` | dramstage/main.c:218-257 | so do the monitor's other steps |
| `BootCue.StepKeepsInv` | dramstage/main.c:165-257 | so does every step |
| `BootCue.RunIsOrderly` | dramstage/main.c:165-257 | over all runs at most one medium is between cue and report, media are cued in order of priority after reporting ready, and on commitment the last user of the payload area is the committed medium |
| `BootCue.CommitmentLasts` | dramstage/main.c:256-257 | after the commitment no medium enters any more |
| `BootCue.FirstLoadedWins` | dramstage/main.c:237-250 | in every run without the button, a medium that has loaded a payload is the one the monitor is at: it is never passed over |
| `BootCue.DiesLast` | dramstage/main.c:244-255 | the monitor gives up only when every medium has exited or loaded; the last one, and without the button every one, has then exited without a payload |
| `Nvme.SubmitKeeps` | lib/nvme.c:149-178 | a submission keeps the invariant of rings, command IDs and requests |
| `Nvme.ConsumeKeeps` | lib/nvme.c:101-147 | so does consuming a completion |
| `Nvme.MarkKeeps` | lib/nvme.c:155-164 | so does a submission that fails for lack of a command ID |
| `Nvme.FetchKeeps` | lib/nvme.c:169-171 | so does the controller's fetching of a command |
| `Nvme.CompleteKeeps` | lib/nvme.c:101-109 | so does the controller's posting of a completion |
| `Nvme.AtPos` | lib/nvme.c:103-107 | the entry at the host's position is the first completion not consumed, or has the wrong phase |
| `Nvme.ConsumedInOrder` | lib/nvme.c:101-147 | over all runs the host takes each completion once and in posting order, across wrap-arounds |
| `Nvme.RunIsOrderly` | lib/nvme.c:101-178 | over all runs the ring is not overrun, the command IDs in the ring, in execution and in completions are all distinct, the phase tells what is new, and a request in a slot is still submitted |
| `NvmeFate.StepFate` | lib/nvme.c:101-178 | a request is answered by the completion of its own command and by nothing else |
| `NvmeFate.RequestAnswered` | lib/nvme.c:126-136 | over all runs a submitted request stays in its slot, marked as submitted, or has the status with which the controller first completed its command, with bit 0 set |
| `Nvme.CommandIdsRunOut` | lib/nvme.c:149-164 | a run that ends with a free slot in the ring and no free command ID |
| `Nvme.InvHostReady` | lib/nvme.c:101-147 | what `ProcessCqe` relies on holds in every state of a run |
| `Nvme.Queues.SubmitSingleCommand` | lib/nvme.c:149-178 | takes the first free command ID; full queue: nothing changes; no free ID: the request is marked and nothing else |
| `Nvme.Queues.ProcessCqe` | lib/nvme.c:101-147 | nothing exactly if nothing has been posted, else the next completion is consumed; never an error with a conforming controller |
| `Prp.PagesBytes` | lib/nvme_xfer.c:60-77 | pages one after the other are the bytes in order |
| `Prp.PathWalk` | lib/nvme_xfer.c:61-69 | the controller reads the pages of a list, through the pointers at page ends |
| `Prp.FinishedList` | lib/nvme_xfer.c:90-94 | the last entry completes the list, even in the last slot of a page |
| `Prp.LaidJoin` | lib/nvme_xfer.c:60-77 | whole pages and what follows them are read one after the other |
| `Prp.SingleBytes` | lib/nvme_xfer.c:27-57 | the chunks of a buffer are its bytes from start to end in order |
| `Prp.ExtendedBytes` | lib/nvme_xfer.c:39-77 | those of another buffer come after the bytes that were there |
| `Prp.EndsPageWhen` | lib/nvme_xfer.c:40-41 | the test that the last buffer went to the end of its page holds exactly if it did and the first did not start at the beginning of one |
| `Prp.SecondPageRefused` | lib/nvme_xfer.c:40-41 | after a buffer that is one whole page, every other one is refused |
| `Prp.FirstPage` | lib/nvme_xfer.c:30-38 | the part of a buffer in its first page |
| `Prp.Xfer.constructor` | lib/nvme_xfer.c:18-20 | a transfer with no entries |
| `Prp.Xfer.Push` | lib/nvme_xfer.c:61-69 | one entry more, with a pointer before it where a page of the list ends; it fails exactly when the list is full |
| `Prp.Xfer.AddRest` | lib/nvme_xfer.c:60-77 | the pages that go to the list |
| `Prp.Xfer.AddList` | lib/nvme_xfer.c:46-77 | all pages after the first |
| `Prp.Xfer.AddPages` | lib/nvme_xfer.c:44-77 | page aligned buffers, the assertion of line 44 included |
| `Prp.Xfer.AddFirst` | lib/nvme_xfer.c:27-57 | a buffer on a transfer without entries |
| `Prp.Xfer.AddPhysBuffer` | lib/nvme_xfer.c:23-78 | for the first buffer and for every other one: succeeds exactly if the assertions hold and the entries fit, and then the transfer is the bytes it had, followed by those of the buffer |
| `Prp.Xfer.EmitRead` | lib/nvme_xfer.c:80-98 | the controller's reading of the two pointers and the list is the content of the transfer |
| `DramSync.PrimaryKeeps` | dram/ddrinit.c:217-252 | a step of the primary keeps the invariant |
| `DramSync.SecondaryKeeps` | dram/training.c:196-208 | so does one of the secondary |
| `DramSync.StepKeepsInv` | dram/ddrinit.c:369-379 | so does every step, the interrupt handler's included |
| `DramSync.RunIsOrderly` | dram/training.c:179-214 | over all runs no sync error, each channel is trained once a round, no switch while a channel trains, the secondary exits only after the last round |
| `DramSync.SomeoneCanMove` | dram/training.c:179-214 | no deadlock: until both are done some step changes something |
| `Fdt.NameAtKept` | dramstage/transform_fdt.c:248-249 | strings in the block are not changed by what is added behind it |
| `Fdt.InsertedResolve` | dramstage/transform_fdt.c:23-33 | the offsets of inserted names resolve to these names |
| `Fdt.InitrdReadsBack` | dramstage/transform_fdt.c:37-50 | the addresses in /chosen read back exactly if both are below 4 GiB |
| `Fdt.InitrdTruncated` | dramstage/transform_fdt.c:37-50 | an address above 4 GiB that does not |
| `Fdt.CellsRoundTrip` | dramstage/transform_fdt.c:72-92 | values that pass the checks can be read back from their cells |
| `Fdt.StrncmpIsEqual` | dramstage/transform_fdt.c:207-222 | in a terminated block the bounded comparison is equality of strings |
| `Fdt.FeedStrip` | dramstage/transform_fdt.c:176 | tokens without meaning change nothing |
| `Fdt.PopUndoesPush` | dramstage/transform_fdt.c:186-196 | leaving a node restores the path |
| `Fdt.PathIsStack` | dramstage/transform_fdt.c:164-235 | at every token the path is the stack of open node names |
| `Fdt.PlainTree` | dramstage/transform_fdt.c:168-235 | an ordinary subtree is copied or skipped as a whole, or its path does not fit |
| `Fdt.MemoryChild` | dramstage/transform_fdt.c:183-185 | /memory is left out |
| `Fdt.ChosenChild` | dramstage/transform_fdt.c:177-226 | /chosen loses its four properties and gets the new ones, addresses cut to 32 bits, before its children |
| `Fdt.RootProps` | dramstage/transform_fdt.c:206-216 | the properties of the root are copied and the cell counts taken from them |
| `Fdt.TransformTree` | dramstage/transform_fdt.c:164-235 | the tokens of a tree become those of the rewritten tree, exactly if it is accepted |
| `Fdt.RoomDecides` | dramstage/transform_fdt.c:164-235 | stopping for lack of room happens exactly if the whole output does not fit |
| `Fdt.OverrunInRoom` | dramstage/transform_fdt.c:164-235 | and running away within the room is running away without limit with six words left |
| `Fdt.NoAddressCells` | dramstage/transform_fdt.c:37-50 | within the room there is, the insertion runs away exactly if there is an initial RAM disk, the root has no address cells, /chosen is reached, and six words are left behind what was written before |
| `Fdt.RanAwayTree` | dramstage/transform_fdt.c:37-50 | on a root and an empty /chosen it does exactly from eleven words of room on |
| `Fdt.PopPath` | dramstage/transform_fdt.c:196 | the path without its last name; the first byte stops the loop |
| `Fdt.PushPath` | dramstage/transform_fdt.c:187-188 | the path with a name and its terminator added |
| `Fdt.InsertChosen` | dramstage/transform_fdt.c:35-70 | the new properties of /chosen exactly if they fit, and when it runs away |
| `Fdt.PutCells` | dramstage/transform_fdt.c:86-92 | the loop over cells writes the number that `CellsRoundTrip` reads back |
| `Fdt.InsertMemory` | dramstage/transform_fdt.c:72-95 | the memory node exactly if its values fit their cells and it fits the output; what is in it is said by `FdtNodes.MemoryNode` |
| `FdtNodes.MemoryNode` | dramstage/transform_fdt.c:72-95 | its name is memory; looked up by name, `device_type` is the text memory and `reg` is the start in address cells followed by the size in size cells |
| `FdtNodes.KeptLookup` | dramstage/transform_fdt.c:217-226 | a property of /chosen can still be found by its name exactly if it is none of the four |
| `FdtNodes.ChosenNode` | dramstage/transform_fdt.c:35-70 | looked up by name in the new /chosen, the four properties have the new values and all others those they had; name and children are the same |
| `FdtNodes.InitrdNumbers` | dramstage/transform_fdt.c:37-50 | the addresses found there are numbers of as many cells as an address has, cut to 32 bits |
| `FdtNodes.RewrittenTree` | dramstage/transform_fdt.c:164-235 | the rewritten root keeps name, properties and all other children in order; every /chosen is replaced by its new form; the last child, the only one of its name, is the memory node |
| `Fdt.OneNode` | dramstage/transform_fdt.c:182-234 | the beginning or end of a node, as the specification has it, room included |
| `Fdt.OneProp` | dramstage/transform_fdt.c:203-234 | a property, as the specification has it, room included |
| `Fdt.OneToken` | dramstage/transform_fdt.c:176-234 | one token, whatever it is |
| `Fdt.TransformTokens` | dramstage/transform_fdt.c:119-235 | for all tokens: the loop stops at the first end of the tree, or where the specification fails or the room ends |
| `Fdt.Transformed` | dramstage/transform_fdt.c:164-235 | on the tokens of a tree, whatever follows them, the loop succeeds exactly if the tree is accepted and the rewritten one fits the output; it has then taken these tokens, and its output is the tree rewritten, in which `FdtNodes.RewrittenTree` says what is found; it runs away exactly under the condition of `NoAddressCells` |
| `Rpn.Find` | tools/regtool_rpn.c:257-259 | the first macro of this name before `end`, or `end` exactly if there is none |
| `Rpn.PopContext` | tools/regtool_rpn.c:232-238 | going back to where a macro was used changes nothing of what is to come |
| `Rpn.MacroAhead` | tools/regtool_rpn.c:257-273 | neither does going into a macro, and the work ahead gets less |
| `Rpn.RunExpression` | tools/regtool_rpn.c:220-280 | terminates, with the result of evaluating the fully inlined expression |
| `Rpn.InlineConcat` | tools/regtool_rpn.c:220-280 | inlining goes token by token |
| `Rpn.UseIsBody` | tools/regtool_rpn.c:257-273 | using a macro is using its body with the macros before it |
| `Xxh.MixedPrefix` | compression/zstd.c:413-438 | blocks that were mixed do not depend on what follows |
| `Xxh.State.constructor` | compression/zstd.c:401-403 | the state of the empty string |
| `Xxh.State.MixAll` | compression/zstd.c:408-440 | the whole blocks are mixed and the rest is kept |
| `Xxh.State.Update` | compression/zstd.c:401-442 | the state of a string becomes that of the string with the data appended |
| `Xxh.SameStringSameState` | compression/zstd.c:401-442 | so it depends on the whole input only, not on how it was divided |

## Left out

- Registers, clocks, PHY, GPIO, interrupt controller, USB, SD and eMMC: device access without behaviour of its own.
- Console output, logging and memory dumps.
- Context switch and exception entry (aarch64/context.S, rk3399/entry.S); handing over a continuation is one step.
- Weak memory ordering, cache maintenance and TLB invalidation.
- lib/sched.c, dramstage/main.c, dram/training.c and dram/ddrinit.c are step functions on values, not methods that change objects: their steps interleave, and what holds of all interleavings is the point.
- The 16-bit wait of lib/sched.c; whether the button is pressed is a free choice; booting without any boot medium; the wait for the board detection.
- `multimap_reference` of lib/mmu.c, which nothing uses, and several mappings in one call of `mmu_multimap`: `map_range` passes one.
- The fixed Huffman codes of inflate and the decoding of code lengths: the model starts from lengths; a block (`InflateBlock`) has complete codes, single look-ups any.
- Headers of gzip and zstd frames and blocks, the checksums at their ends, and the decoding of Huffman weights before line 96 of compression/zstd_literals.c.
- The division of literals into four streams.
- LZ4, RC4, number formatting, DRAM size encoding and partition tables: easier than what is here.
- The text lexer of regtool and the arithmetic of its operators: expressions are lists of tokens, operators a parameter.
- The round function and the final mixing of XXH64: the round is a parameter.
- The header, reserve map and string block of the device tree rewrite, and the room they take.
- The result words of a completion; more than one completion queue: any number of submission queues share one. `nvme_wait_req` only calls `nvme_process_cqe`.
- InflateBlock.Decoder.HuffBlock: the whole input is one string of which a call sees a part; `InflateBlock.DecodeBlock` hands the rest on, as the caller has to. The codes of a block are complete.
- BackBits.DecodeBytes: a request that is lost ends the model; what the source extracts from the register then, in part by shifts that C leaves undefined, is not said.
