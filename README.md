# A verified model of the XiangShan gem5 out-of-order core's scheduler and prefetchers

This project models, in Dafny, the deterministic core of a gem5 simulator fork for the
XiangShan RISC-V processors, and proves properties of the model:

- **Issue queues and their scheduler** (`issue_queue.dfy`, `scheduler.dfy`). `IssueQue` and
  `Scheduler` are classes. The model covers:
  - per-queue occupancy counters and admission (`full`/`ready`);
  - oldest-first ready queues, per-port selection and the issue stages towards the functional
    units;
  - commit and squash over the in-order instruction list;
  - port-busy countdowns and register-file read-port arbitration;
  - speculative wake-up and its delay arithmetic;
  - scoreboard checks and the transitive load-miss cancellation.
- **Scheduler topologies** (`fu_scheduler.dfy`, `rf_port.dfy`): the queues and ports of the
  configured schedulers, and the read-port encoding `IntRD`/`FpRD` with its decoding.
- **The content-directed prefetcher** (`cdp.dfy`): the VPN hotness table with its
  sub-entries, the filter table of two-bit saturating counters, the LRU de-duplication filter,
  and pointer scanning over Sv39 virtual-address fields.
- **The stream prefetcher** (`xs_stream.dfy`): region bit vectors and their counts, active
  and decrement detection, prefetch targets and depth adaptation.
- **VIPT lookup** (`vipt.dfy`): alias bits, tag and set extraction, address regeneration, and
  the alias search of `findBlock`.
- **Small components**:
  - `nemu.dfy`: NEMU's little-endian buffers;
  - `gcpt.dfy`: the GCPT memory window;
  - `perf_cct.dfy`: the commit-trace ring and its SQL rows;
  - `riscv_mem.dfy`: RISC-V load/store disassembly and the store-data micro-op.
- **Offline scripts**:
  - `clock_analysis.dfy`: the basic-block splitter and the pc and window arithmetic of the
    commit-trace analyser;
  - `gcpt_list.dfy`: the checkpoint-list generator: discovery of the checkpoint files, their
    stable sort by part number, the batch arithmetic, the writing of the list (with the
    `IndexError` of a `run_sum` shorter than the checkpoint list) and its rendering.

`common.dfy` holds the shared vocabulary: options, bit fields on naturals, decimal rendering and
the key-only LRU cache.

Instructions are records keyed by their sequence number. Set-associative tables are maps keyed by
tag, and a replacement victim is a parameter. Bit operations are arithmetic on unbounded naturals
(`x >> k` is `x / 2^k`). A C++ `assert` becomes a precondition. A `panic`, `fatal` or Python
exception becomes an error result.

## Model

| member | source | states |
|---|---|---|
| `RfPort.IntRd` | configs/common/FUScheduler.py:13-18 | an integer read port packs file 0, port id and priority into one byte below 64 |
| `RfPort.FpRd` | configs/common/FUScheduler.py:20-25 | a floating-point read port packs file 1, port id and priority into one byte in [64, 128) |
| `RfPort.IntRdDecodes` | src/cpu/o3/issue_queue.cc:43-51 | the queue's field extraction of an `IntRD` encoding gives back the integer file, the port id and the priority |
| `RfPort.FpRdDecodes` | src/cpu/o3/issue_queue.cc:43-51 | the same for an `FpRD` encoding and the floating-point file |
| `RfPort.DecodeEncode` | src/cpu/o3/issue_queue.cc:43-48 | every encoding is the packing of the fields it decodes to |
| `RfPort.ReadPortsDistinct` | configs/common/FUScheduler.py:13-25 | distinct (file, port, priority) triples give distinct encodings |
| `RfPort.TypePortIdBounds` | src/cpu/o3/issue_queue.cc:132-140 | the occupancy key of any port is below `MAXVAL_TYPEPORTID`, and distinct (file, port) pairs get distinct keys |
| `FuScheduler.EncodingsAccepted` | src/cpu/o3/issue_queue.cc:130-144 | every encoding the configuration helpers produce passes the constructor's priority, key and file checks |
| `FuScheduler.CountNamed` | src/cpu/o3/issue_queue.cc:668-679 | the number of queues carrying a name is at most the number of queues, and zero exactly when no queue carries it |
| `FuScheduler.UniqueNameCount` | src/cpu/o3/issue_queue.cc:668-679 | with distinct queue names, a name that occurs names exactly one queue, so the lookup neither panics nor fails |
| `FuScheduler.ECoreSchedulersWellFormed` | configs/common/FUScheduler.py:27-96 | both ECore schedulers use the crossbar, and every queue has one to eight output ports whose unit lists are identical or disjoint |
| `FuScheduler.KunminghuQueuesWellFormed` | configs/common/FUScheduler.py:98-154 | every Kunminghu queue has one to eight ports with identical or disjoint unit lists, and every read port it lists is accepted |
| `FuScheduler.KunminghuDistinctNames` | configs/common/FUScheduler.py:98-154 | no two Kunminghu queues share a name |
| `FuScheduler.KunminghuNetworkResolves` | configs/common/FUScheduler.py:155-170 | the Kunminghu network is explicit, and every source and destination name in it picks out exactly one queue |
| `Gcpt.LastByteUnreachable` | src/dev/riscv/gcpt.cc:12-13 | because the end bound is strict, no access the guard accepts touches the window's last byte |
| `Gcpt.ReadAt` | src/dev/riscv/gcpt.cc:14-16 | a read returns exactly size bytes, those at the offset |
| `Gcpt.Splice` | src/dev/riscv/gcpt.cc:30-32 | a write keeps the window's length, puts the data at the offset and leaves every other byte |
| `Gcpt.ReadAfterWrite` | src/dev/riscv/gcpt.cc:8-36 | reading the range just written returns the written bytes |
| `Gcpt.ReadBesideWrite` | src/dev/riscv/gcpt.cc:8-36 | a read that does not overlap a write sees the bytes from before it |
| `Gcpt.Gcpt.constructor` | src/dev/riscv/gcpt.cc:38-43 | the window is allocated at its full size and zeroed |
| `Gcpt.Gcpt.Read` | src/dev/riscv/gcpt.cc:8-20 | a guarded read returns the bytes at addr - pioAddr and `pioDelay`, and leaves memory unchanged |
| `Gcpt.Gcpt.Write` | src/dev/riscv/gcpt.cc:22-36 | a guarded write copies the data to addr - pioAddr, changes nothing else, and returns `pioDelay` |
| `GcptList.BatchSize` | util/zebra/gen_gcpt_list.py:18 | the batch size is the ceiling of intervals over cores: enough cores times it cover every interval, one fewer does not |
| `GcptList.Render` | util/zebra/gen_gcpt_list.py:51-55 | every output line starts with `part` and a number follows |
| `GcptList.Discover` | util/zebra/gen_gcpt_list.py:26-35 | an entry is made exactly for each directory holding a checkpoint, with that directory's part number and file |
| `GcptList.SortEntries` | util/zebra/gen_gcpt_list.py:38 | the entries come out sorted by part number and are a permutation of the input (an insertion sort) |
| `GcptList.InsertByPart` | util/zebra/gen_gcpt_list.py:38 | inserting into a sorted list keeps it sorted and adds exactly the new entry |
| `GcptList.InsertCounts` | util/zebra/gen_gcpt_list.py:38 | insertion adds the entry once to the multiset of entries |
| `GcptList.SortedInsert` | util/zebra/gen_gcpt_list.py:38 | inserting after every entry that is not larger keeps the order |
| `GcptList.ListedAppend` | util/zebra/gen_gcpt_list.py:50-55 | the indices listed after appending a line are those listed before plus the line's own |
| `GcptList.NotListedAbove` | util/zebra/gen_gcpt_list.py:50-55 | no line carries an index above the entries processed so far |
| `GcptList.WriteList` | util/zebra/gen_gcpt_list.py:49-55 | entry k is written as part k with count `(batch_size - run_sum[k-1]) * 20` exactly when its sum is below the batch size; a short `run_sum` stops the loop with an index error after the lines before it |
| `GcptList.GenGcptList` | util/zebra/gen_gcpt_list.py:12-55 | every line starts with `part`; without a run directory (and with a positive interval count) nothing fails and every checkpoint gets one line |
| `GcptList.AllIndicesListed` | util/zebra/gen_gcpt_list.py:50-55 | strictly increasing indices from 1..n that include all of 1..n are exactly 1..n |
| `GcptList.IndexIsPosition` | util/zebra/gen_gcpt_list.py:50-55 | then line j carries index j + 1 |
| `Nemu.LeBytes` | src/cpu/simple/nemu.cc:277-282 | the little-endian split of a value has exactly the requested number of bytes |
| `Nemu.LeValueBound` | src/cpu/simple/nemu.cc:267-274 | the value assembled from n bytes is below 2^(8n) |
| `Nemu.LeValueOfLeBytes` | src/cpu/simple/nemu.cc:267-282 | assembling the bytes a value was split into gives the value truncated to those bytes |
| `Nemu.LeBytesOfLeValue` | src/cpu/simple/nemu.cc:267-282 | splitting an assembled value back into as many bytes gives the original bytes |
| `Nemu.ArrayToUint64` | src/cpu/simple/nemu.cc:267-274 | the loop returns the little-endian value of the first len bytes, below 2^(8 len) |
| `Nemu.Uint64ToArray` | src/cpu/simple/nemu.cc:277-282 | the loop writes the little-endian bytes of the value into the first len slots and leaves the rest of the array |
| `Nemu.NemuCpu.constructor` | src/cpu/simple/nemu.cc:63-70 | the instruction counter starts at zero |
| `Nemu.NemuCpu.Tick` | src/cpu/simple/nemu.cc:99-114 | a report of 0 exits with code 0, a negative one with code 1, both leaving the counter; a positive one is added to the counter and the CPU continues; both instruction totals equal the counter |
| `Nemu.NemuCpu.ReadPort` | src/cpu/simple/nemu.cc:142-192 | the request is a physical read of len bytes, an instruction fetch exactly on the instruction port; an error response stops the simulator, any other gives the little-endian value of the response, below 2^(8 len) |
| `Nemu.NemuCpu.Write` | src/cpu/simple/nemu.cc:195-218 | the request is a physical write of len bytes whose payload is the low len bytes of the data, least significant first; an error response stops the simulator |
| `PerfCct.Slot` | src/cpu/o3/perfCCT.cc:37-42 | an instruction's record slot is its sequence number modulo `MaxMetas`, always a valid slot |
| `PerfCct.SlotsShared` | src/cpu/o3/perfCCT.cc:37-42 | two sequence numbers share a slot exactly when they differ by a multiple of `MaxMetas`, so fewer than `MaxMetas` consecutive instructions never share one |
| `PerfCct.SplitComma` | src/cpu/o3/perfCCT.cc:71-80 | splitting a row at commas gives at least one field |
| `PerfCct.SplitJoinComma` | src/cpu/o3/perfCCT.cc:26-31 | fields without commas, joined with commas, split back into the same fields |
| `PerfCct.Decimals` | src/cpu/o3/perfCCT.cc:73-76 | every tick is printed as its decimal text, one per position |
| `PerfCct.RowTicksReadBack` | src/cpu/o3/perfCCT.cc:64-83 | the tick list of a committed row splits at commas back into decimal texts whose values are the recorded ticks |
| `PerfCct.Reset` | src/cpu/o3/perfCCT.cc:10-18 | a reset record carries the instruction's sequence number, pc and disassembly, and `AtCommit + 1` zero ticks |
| `PerfCct.BuildInsertPrefix` | src/cpu/o3/perfCCT.cc:26-32 | streaming the first name and then comma and name gives the insert prefix over the joined names |
| `PerfCct.BuildRow` | src/cpu/o3/perfCCT.cc:71-80 | streaming the prefix, the first tick and then comma and tick, the quoted disassembly and the pc gives the row |
| `PerfCct.PerfCct.constructor` | src/cpu/o3/perfCCT.cc:21-35 | an enabled tracer has `MaxMetas` blank records and nothing executed |
| `PerfCct.PerfCct.CreateMeta` | src/cpu/o3/perfCCT.cc:44-52 | when enabled, the instruction's slot is reset for it and every other slot is left; disabled, nothing changes |
| `PerfCct.PerfCct.UpdateInstPos` | src/cpu/o3/perfCCT.cc:54-62 | when enabled, the tick at the position is set to the current tick, and a position outside the record is an error (the bounds-checked `at`); disabled, nothing changes |
| `PerfCct.PerfCct.CommitMeta` | src/cpu/o3/perfCCT.cc:64-83 | when enabled, exactly one row, built from the instruction's slot, is sent to the database; the records are left |
| `RiscvMem.Format` | src/arch/riscv/insts/mem.cc:47-63 | a load or store disassembly is the mnemonic, a space, and an operand text ending in `)` |
| `RiscvMem.LoadDisassembly` | src/arch/riscv/insts/mem.cc:47-54 | a load's text parses back to its mnemonic, destination register 0, offset and base register (source 0) |
| `RiscvMem.StoreDisassembly` | src/arch/riscv/insts/mem.cc:56-63 | a store's text parses back to its mnemonic, data register (source 1), offset and base register (source 0) |
| `RiscvMem.OffsetTextPlain` | src/arch/riscv/insts/mem.cc:51-52 | an offset's decimal text has no parenthesis |
| `RiscvMem.OffsetTextInjective` | src/arch/riscv/insts/mem.cc:51-52 | distinct offsets print differently |
| `RiscvMem.ParseMemDisassembly` | src/arch/riscv/insts/mem.cc:47-63 | a parse that succeeds returns fields that format back to the text |
| `RiscvMem.ParseRegister` | src/arch/riscv/insts/mem.cc:51-52 | a parse of the operand text that succeeds returns register, offset and base that rebuild it |
| `RiscvMem.ParseAddress` | src/arch/riscv/insts/mem.cc:52 | a parse of `offset(base)` that succeeds returns parts that rebuild it |
| `RiscvMem.ParseAddressOf` | src/arch/riscv/insts/mem.cc:52 | `offset(base)` with a parenthesis-free offset parses back to its parts |
| `RiscvMem.ParseRegisterOf` | src/arch/riscv/insts/mem.cc:51-52 | `reg, offset(base)` parses back to its parts |
| `RiscvMem.ParseFormat` | src/arch/riscv/insts/mem.cc:47-63 | the disassembly of a load or store parses back to its mnemonic, register, offset and base |
| `RiscvMem.SqEntry.constructor` | src/arch/riscv/insts/mem.cc:65-81 | a store-queue entry starts with a data buffer of its size and no status |
| `RiscvMem.SqEntry.StoreData` | src/arch/riscv/insts/mem.cc:65-81 | store-data never faults; a faulted store changes nothing; otherwise the low memsize bytes of the value go to the entry's data (and its memory image when there is one) and both pipeline statuses are set |
| `RiscvMem.StoredBytesReadBack` | src/arch/riscv/insts/mem.cc:74-75 | the bytes stored read back as the value truncated to memsize bytes |
| `Vipt.Geometry.AliasBits` | src/mem/cache/tags/indexing_policies/vipt_set_associative.hh:70-72 | the alias bits are the set-index and offset bits reaching past the page offset: page bits plus alias bits are offset plus set bits, and in-page set bits plus alias bits are all the set bits |
| `Vipt.ExtractSet` | src/mem/cache/tags/indexing_policies/vipt_set_associative.hh:67-68 | the set index is below the number of sets |
| `Vipt.Decompose` | src/mem/cache/tags/indexing_policies/vipt_set_associative.hh:74-83 | every address is its high, alias, in-page set and block-offset fields, each in range |
| `Vipt.ComposeSet` | src/mem/cache/tags/indexing_policies/vipt_set_associative.hh:74-83 | the set index of an address is its alias field over its in-page set bits |
| `Vipt.ComposeTag` | src/mem/cache/tags/indexing_policies/vipt_set_associative.hh:126-133 | the tag of an address is its high and alias fields, every bit above the page offset, and the page offset is the in-page and offset fields |
| `Vipt.ComposeAbove` | src/mem/cache/tags/indexing_policies/vipt_set_associative.hh:74-83 | above the alias field an address holds its high field |
| `Vipt.RegenerateInvertsExtract` | src/mem/cache/tags/indexing_policies/vipt_set_associative.hh:117-124 | regenerating from an address's tag and set gives back the address with its block offset cleared |
| `Vipt.AliasKeepsOtherBits` | src/mem/cache/tags/vipt_set_assoc.cc:67-71 | alias address i keeps the page offset and every bit above the alias field |
| `Vipt.AliasAddrFields` | src/mem/cache/tags/vipt_set_assoc.cc:67-71 | the alias field of alias address i is i, so its set index is i over the address's in-page set bits |
| `Vipt.AliasIsCompose` | src/mem/cache/tags/vipt_set_assoc.cc:67-71 | alias address i is the address with its alias field replaced by i |
| `Vipt.AliasSetsDistinct` | src/mem/cache/tags/vipt_set_assoc.cc:67-74 | distinct alias probes of one address look in distinct sets |
| `Vipt.EightSetsOneAliasBit` | src/mem/cache/tags/indexing_policies/vipt_set_associative.hh:85-97 | with 8 sets and one alias bit, an address of set 0 is probed in sets 0 and 4 |
| `Vipt.VirtualSetIsProbed` | src/mem/cache/tags/vipt_set_assoc.cc:92-103 | when the virtual and physical address share a page offset, the set chosen from the virtual address is one of the alias sets probed for the physical one |
| `Vipt.SamePageOffset` | src/mem/cache/tags/indexing_policies/vipt_set_associative.hh:70-72 | addresses with the same page offset have the same in-page set bits |
| `Vipt.FloorLog2` | src/mem/cache/tags/vipt_set_assoc.cc:55-59 | the floor logarithm r of n has 2^r <= n < 2^(r+1) |
| `Vipt.VictimAddr` | src/mem/cache/tags/vipt_set_assoc.cc:97-102 | the victim is looked for by the virtual address when the request has one, else by the packet address |
| `Vipt.ViptSetAssoc.constructor` | src/mem/cache/tags/vipt_set_assoc.cc:55-59 | the page shift is the floor logarithm of an even page size, and every block starts invalid |
| `Vipt.ViptSetAssoc.FindBlock` | src/mem/cache/tags/vipt_set_assoc.cc:61-90 | a miss exactly when no probe, alias by alias and way by way, matches the tag; a hit is the first matching probe, its recorded way the probed way or the default, and only its hit way changes; a first match with any other recorded way is the fatal case |
| `Vipt.ViptSetAssoc.FindVictimSet` | src/mem/cache/tags/vipt_set_assoc.cc:92-103 | the victim set is the set of the virtual address when present, else of the packet address, and with a shared page offset it is one of the sets `FindBlock` probes |
| `ClockAnalysis.WordIsRun` | util/ClockAnalysis.py:97 | a word is the run of non-blank characters at the start of the text, ending at a blank or the end |
| `ClockAnalysis.FirstWordIsWord` | util/ClockAnalysis.py:97 | `split()[0]` exists exactly when the text has a non-blank character, and is then the non-empty run after the leading blanks |
| `ClockAnalysis.IsBranchInst` | util/ClockAnalysis.py:92-97 | the branch test fails (the index raises) exactly when the instruction text is all blanks |
| `ClockAnalysis.BranchByPrefixes` | util/ClockAnalysis.py:92-97 | matching by prefix, the list reduces to `beq`, `bne`, `blt`, `bge`, `j`, `ret`, `c_beqz`, `c_bnez` and `c_j` |
| `ClockAnalysis.BlocksSnoc` | util/ClockAnalysis.py:104-108 | the blocks of a trace with one more record are one loop step on the blocks before |
| `ClockAnalysis.FlattenExtend` | util/ClockAnalysis.py:104-108 | a loop step appends the record to the blocks laid end to end |
| `ClockAnalysis.WellCutExtend` | util/ClockAnalysis.py:104-108 | a loop step keeps every block non-empty and cut exactly after its branch |
| `ClockAnalysis.BlocksPartition` | util/ClockAnalysis.py:100-112 | the blocks, laid end to end, are the trace, and they are cut exactly after branches |
| `ClockAnalysis.BlockLengthsSum` | util/ClockAnalysis.py:100-112 | the block lengths add up to the trace length |
| `ClockAnalysis.LoopStep` | util/ClockAnalysis.py:104-108 | a branch closes the current block with the record, any other record extends it |
| `ClockAnalysis.StepKeeps` | util/ClockAnalysis.py:104-110 | one iteration keeps the loop's closed and open blocks equal to the blocks of the trace read so far |
| `ClockAnalysis.ExtractBasicBlocks` | util/ClockAnalysis.py:100-112 | the counter is the multiset of the trace's basic blocks; it fails exactly when some instruction has no word |
| `ClockAnalysis.StoredPc` | util/ClockAnalysis.py:53-57 | a pc stored in sqlite lies in [-2^63, 2^63) |
| `ClockAnalysis.FixPcRestores` | util/ClockAnalysis.py:53-57 | adding 2^64 to a negative stored pc gives back the pc that was stored |
| `ClockAnalysis.FixPcRange` | util/ClockAnalysis.py:53-57 | every value sqlite can hold becomes an unsigned 64-bit pc congruent to it |
| `ClockAnalysis.FloorDiv` | util/ClockAnalysis.py:51 | Python's `//` rounds toward negative infinity and raises on a zero divisor |
| `ClockAnalysis.EffectivePeriod` | util/ClockAnalysis.py:222-223 | on the RTL platform the period is 1, otherwise the one given |
| `ClockAnalysis.RtlCyclesAreTicks` | util/ClockAnalysis.py:222-223 | on the RTL platform a stage's cycle is its tick |
| `ClockAnalysis.WindowInCycles` | util/ClockAnalysis.py:32-34 | the window keeps a row exactly when it commits from the start cycle on and before the end cycle, or on the end cycle's first tick |
| `ClockAnalysis.GapMode` | util/ClockAnalysis.py:225-226 | asking for both gap modes is refused; otherwise the result says whether it is the inter-gap mode |
| `ClockAnalysis.ChosenAppend` | util/ClockAnalysis.py:146-166 | the rows chosen after appending an entry are those before plus the entry's row |
| `ClockAnalysis.NotChosenAbove` | util/ClockAnalysis.py:146-166 | a row above every entry so far is not chosen |
| `ClockAnalysis.ListRows` | util/ClockAnalysis.py:146-166 | a row is listed exactly when it passes the pc-range or attention filter, in trace order, and its mark says whether its pc is an attention pc |
| `XsStream.SetBitCount` | src/mem/cache/prefetch/xs_stream.cc:92-95 | setting a clear bit of the region vector adds one to its population count |
| `XsStream.SingleBitCount` | src/mem/cache/prefetch/xs_stream.cc:104-105 | a vector with a single bit set counts one |
| `XsStream.AddrAdd` | src/mem/cache/prefetch/xs_stream.cc:116 | address arithmetic stays below 2^64 and is exact when nothing wraps |
| `XsStream.TargetOffset` | src/mem/cache/prefetch/xs_stream.cc:54-62 | without wrap-around, a send starts `depth * blkSize` bytes beyond the block, or before it in downward mode |
| `XsStream.TargetsMirror` | src/mem/cache/prefetch/xs_stream.cc:54 | the upward and downward targets lie at the same distance on either side of the block |
| `XsStream.AdaptDepthCases` | src/mem/cache/prefetch/xs_stream.cc:39-51 | nothing changes before the check interval or without auto-depth; otherwise the issue count restarts, a late stream deepens by the step unless at the right bound, and more bad prefetches than the threshold reset their count and halve the depth by the step unless at the left bound |
| `XsStream.Access` | src/mem/cache/prefetch/xs_stream.cc:67-109 | the table stays within capacity and every entry's count matches its vector |
| `XsStream.AccessCases` | src/mem/cache/prefetch/xs_stream.cc:83-108 | the region ends up in the table with its offset bit set and its flags reported; a hit updates only that entry, and a miss replaces the victim by a fresh entry counting one block, active exactly when a neighbour is and downward exactly when the tag + 1 entry exists |
| `XsStream.HitEntry` | src/mem/cache/prefetch/xs_stream.cc:83-95 | on a hit the region turns active when a neighbour is active or its count exceeded the threshold, turns downward when the tag + 1 entry exists, and gets its offset bit set, counted only when it was clear, with no other bit changed |
| `XsStream.NewEntry` | src/mem/cache/prefetch/xs_stream.cc:98-107 | a fresh entry has only the offset's bit set and a count of one |
| `XsStream.Candidates` | src/mem/cache/prefetch/xs_stream.cc:115-116 | a send tries exactly `degree` addresses |
| `XsStream.Request` | src/mem/cache/prefetch/xs_stream.cc:122-130 | a request carries its address, priority and source, and is sent ahead exactly when the ahead level is above 1, to that level |
| `XsStream.StreamRequests` | src/mem/cache/prefetch/xs_stream.cc:53-63 | the sends at priority 1 to level 1, 2 or (when enabled) 3 produce only stream requests |
| `XsStream.Requests` | src/mem/cache/prefetch/xs_stream.cc:122 | one request per sent address, in order, and their addresses are the sent ones |
| `XsStream.Addrs` | src/mem/cache/prefetch/xs_stream.cc:122 | the addresses of the requests, in order |
| `XsStream.FilterCandidates` | src/mem/cache/prefetch/xs_stream.cc:115-132 | the loop sends only candidates, sends every candidate the filter did not hold, and leaves both filters with exactly the sent addresses inserted in order |
| `XsStream.AddrsConcat` | src/mem/cache/prefetch/xs_stream.cc:55-62 | the addresses of two sends in a row are those of the first followed by those of the second |
| `XsStream.XsStreamPrefetcher.constructor` | src/mem/cache/prefetch/xs_stream.cc:11-21 | the prefetcher starts with the configured depth, no bad prefetches, an empty table and empty filters |
| `XsStream.XsStreamPrefetcher.StreamLookup` | src/mem/cache/prefetch/xs_stream.cc:67-109 | the table and the reported flags are those `Access` gives for the region, its tag + 1 entry and its neighbours' activity |
| `XsStream.XsStreamPrefetcher.SendPfWithFilter` | src/mem/cache/prefetch/xs_stream.cc:111-133 | every request sent is a candidate with the given priority, source and ahead level; every candidate the filter did not hold is sent; both filters get exactly the sent addresses |
| `XsStream.XsStreamPrefetcher.SendStreams` | src/mem/cache/prefetch/xs_stream.cc:53-64 | every request is a stream request, and every L1 candidate the filter did not hold is sent |
| `XsStream.XsStreamPrefetcher.CalculatePrefetch` | src/mem/cache/prefetch/xs_stream.cc:22-65 | a cache miss on a recently stream-prefetched block counts as bad; depth, bad count and issue count follow the adaptation step; the table follows `Access`; an inactive region sends nothing, an active one sends every unfiltered L1 candidate in its direction; all requests are stream requests of the access's source |
| `Cdp.FieldsAreBits` | src/mem/cache/prefetch/cdp.hh:40-41 | the Sv39 fields vpn2, vpn1, vpn0, page offset and the high check bits are the `BITS` slices 38:30, 29:21, 20:12, 11:0 and 63:39 |
| `Cdp.Sv39Split` | src/mem/cache/prefetch/cdp.cc:363-375 | an address below 2^39 is rebuilt exactly from the four fields `addToVpnTable` splits it into |
| `Cdp.CatInjective` | src/mem/cache/prefetch/cdp.hh:235-240 | joining vpn2 above a 9-bit vpn1 tells regions apart: equal joins mean equal fields |
| `Cdp.SplitInjective` | src/mem/cache/prefetch/cdp.hh:235-240 | the entry tag and the sub-entry index together determine the joined region, so two regions never share a sub-entry |
| `Cdp.CeilLog2` | src/mem/cache/prefetch/cdp.hh:180 | the index width is the fewest bits that number all the sub-entries: n <= 2^b and 2^(b-1) < n |
| `Cdp.SixSubEntriesOverflow` | src/mem/cache/prefetch/cdp.hh:232-233 | six sub-entries pass the constructor's check, yet region (0, 7) selects sub-entry 7 of 6 |
| `Cdp.SubIndexInRange` | src/mem/cache/prefetch/cdp.hh:232-233 | under the corrected check every region selects an existing sub-entry, and every count it admits passes the original check |
| `Cdp.AddCases` | src/mem/cache/prefetch/cdp.hh:235-256 | after `add` the sub-entry exists, counted once more (four times for a hit on a CDP block) if it existed and freshly initialised otherwise; the entry's other sub-entries are kept, or cleared when the entry is new |
| `Cdp.AddKeepsOk` | src/mem/cache/prefetch/cdp.hh:235-256 | `add` keeps every entry at the configured number of well-formed sub-entries |
| `Cdp.AddFrame` | src/mem/cache/prefetch/cdp.hh:235-256 | `add` changes only the addressed entry and the victim it may evict, and grows the table only when a new entry takes no victim's place |
| `Cdp.AddNeverHeats` | src/mem/cache/prefetch/cdp.hh:122-128 | counting an access never makes a region hot |
| `Cdp.UpdateCases` | src/mem/cache/prefetch/cdp.hh:289-301 | `update` under throttling lowers an existing sub-entry's past count by one, not below zero, and recomputes its hot flag; otherwise, or on a miss, the table is unchanged |
| `Cdp.OnlyDecayedTrans` | src/mem/cache/prefetch/cdp.hh:144-147 | a sequence of decrements only decays the table |
| `Cdp.ResetEntry` | src/mem/cache/prefetch/cdp.hh:148-157 | a period reset keeps the number of sub-entries of an entry |
| `Cdp.ResetCases` | src/mem/cache/prefetch/cdp.hh:257-270 | after a period reset every existing sub-entry has a zero current count, the decayed past count and a hot flag that matches it; the others and the set of entries are unchanged |
| `Cdp.ResetKeepsOk` | src/mem/cache/prefetch/cdp.hh:257-270 | a period reset keeps the table well formed and its number of entries |
| `Cdp.FreshCounters` | src/mem/cache/prefetch/cdp.hh:329-342 | a new or reset filter entry has one two-bit counter per slot, each at 2 |
| `Cdp.SetUnSetInverse` | src/mem/cache/prefetch/cdp.hh:360-368 | `setFilter` and `unSetFilter` undo each other away from saturation, keep every counter in 0..3 and touch only the address's slot |
| `Cdp.FilterInsert` | src/mem/cache/prefetch/cdp.cc:377-398 | `insertFilterTable` keeps every filter entry at the region size with counters in range |
| `Cdp.FilterInsertSize` | src/mem/cache/prefetch/cdp.cc:377-398 | only an unused prefetch of a region with no entry allocates one; nothing else changes the number of entries |
| `Cdp.UsedNeverFiltered` | src/mem/cache/prefetch/cdp.cc:400-427 | after a used prefetch is recorded its address is not filtered |
| `Cdp.UnusedFilters` | src/mem/cache/prefetch/cdp.cc:429-437 | the first unused prefetch of a region with no entry already filters its slot, and an unused prefetch never lifts a filter |
| `Cdp.ZeroRegionAdmitted` | src/mem/cache/prefetch/cdp.cc:81-82 | a region size of zero passes the constructor's check though it leaves no slot for any address |
| `Cdp.RegionSlotExists` | src/mem/cache/prefetch/cdp.cc:81-82 | with the size also required positive every address has a slot |
| `Cdp.VpnTable.constructor` | src/mem/cache/prefetch/cdp.hh:225-234 | a new table is empty, with its access counter at zero and the given capacity, sub-entry count and period |
| `Cdp.VpnTable.Locate` | src/mem/cache/prefetch/cdp.hh:235-240 | every region lands on an existing sub-entry |
| `Cdp.VpnTable.Add` | src/mem/cache/prefetch/cdp.hh:235-256 | `add` applies the table step at the region's tag and index and counts one access towards the period |
| `Cdp.VpnTable.Update` | src/mem/cache/prefetch/cdp.hh:289-301 | `update` applies the decrement at the region |
| `Cdp.VpnTable.ResetConfidence` | src/mem/cache/prefetch/cdp.hh:257-270 | before the period ends nothing changes; once it has, every entry is reset and the counter restarts at zero |
| `Cdp.AddRecords` | src/mem/cache/prefetch/cdp.cc:363-375 | after `addToVpnTable` the address's region exists, whether or not a period reset follows |
| `Cdp.Pointers` | src/mem/cache/prefetch/cdp.hh:485-509 | the pointers found are no more than the words scanned |
| `Cdp.PointersMembers` | src/mem/cache/prefetch/cdp.hh:485-509 | a word is among the pointers found exactly when it is scanned and passes every test: canonical, nonzero vpn0, aligned, hot region |
| `Cdp.PointersConcat` | src/mem/cache/prefetch/cdp.hh:485-509 | the pointers come out in the order of the words |
| `Cdp.PageAlignmentUnreachable` | src/mem/cache/prefetch/cdp.cc:273-278 | as written no accuracy selects page alignment: at 0.5% the bits cleared are still 10:0 |
| `Cdp.AlignHiMonotone` | src/mem/cache/prefetch/cdp.cc:273-278 | with the 1% test first, below 1% a pointer must be page aligned, and lower accuracy never relaxes the alignment, so a word kept at a lower accuracy is kept at a higher one |
| `Cdp.PointerUpdatesDecay` | src/mem/cache/prefetch/cdp.cc:304-315 | the table updates for one pointer's blocks only decay the table |
| `Cdp.PointerSendsFilter` | src/mem/cache/prefetch/cdp.cc:346-361 | after one pointer's sends the LRU filter is the old one with every sent address inserted in order, within its 128 entries |
| `Cdp.PointerSendsRequests` | src/mem/cache/prefetch/cdp.cc:304-315 | one pointer sends at most one request per block, each a CDP request for one of its blocks at that block's priority and the given depth |
| `Cdp.PointerSendsComplete` | src/mem/cache/prefetch/cdp.cc:304-315 | every block of the pointer that was not in the filter beforehand is requested |
| `Cdp.SendPfWithFilter` | src/mem/cache/prefetch/cdp.cc:346-361 | a request is sent exactly when its address is not in the filter; a sent address enters the filter and exactly one request is appended |
| `Cdp.SendAllFilter` | src/mem/cache/prefetch/cdp.cc:168-182 | over all the pointers of a block the filter tracks the sends and stays within its size |
| `Cdp.SendAllTable` | src/mem/cache/prefetch/cdp.cc:168-182 | over all the pointers of a block the table only decays and keeps its entries |
| `Cdp.SendAllRequests` | src/mem/cache/prefetch/cdp.cc:168-182 | earlier requests stay in place, and every new request is one of a found pointer's |
| `Cdp.SendAllComplete` | src/mem/cache/prefetch/cdp.cc:168-182 | every block of every pointer found, not in the filter at the start, is requested |
| `Cdp.ScanSendsFilter` | src/mem/cache/prefetch/cdp.cc:271-319 | over a block scan the filter tracks the sends and stays within its size |
| `Cdp.ScanSendsTable` | src/mem/cache/prefetch/cdp.cc:271-319 | over a block scan the table only decays and keeps its entries |
| `Cdp.ScanSendsRequests` | src/mem/cache/prefetch/cdp.cc:271-319 | earlier requests stay in place, and every new request is one of a scanned word's |
| `Cdp.ScanSendsComplete` | src/mem/cache/prefetch/cdp.cc:271-319 | every block of every word that was a pointer in the table as the scan reached it, and not in the filter at the start, is requested |
| `Cdp.SendPointer` | src/mem/cache/prefetch/cdp.cc:304-315 | the loop over one pointer's blocks sends exactly the pointer's specified sends and applies its specified table updates |
| `Cdp.ScanPointer` | src/mem/cache/prefetch/cdp.hh:485-509 | `scanPointer` returns exactly the pointers, in order, among the first eight words, with bits 1:0 clear |
| `Cdp.SendPointers` | src/mem/cache/prefetch/cdp.cc:168-182 | the loop over the pointers found sends and updates exactly as the specified run of pointers |
| `Cdp.ScanAndSend` | src/mem/cache/prefetch/cdp.cc:271-319 | the scan loop sends and updates exactly as the specified scan, and nothing at all when the block's depth has reached the threshold |
| `Cdp.NotifyOutcomeSpec` | src/mem/cache/prefetch/cdp.cc:202-329 | `notifyWithData` only decays the table, keeps the filter tracking the sends within its size, appends only requests for the block's words at the next depth, sends nothing past an early exit or at the depth threshold, and keeps the throttling flag on an early exit |
| `Cdp.AddAndResetRecords` | src/mem/cache/prefetch/cdp.cc:363-375 | after `addToVpnTable` the region is recorded and the table stays well formed |
| `Cdp.CdpPrefetcher.constructor` | src/mem/cache/prefetch/cdp.cc:56-83 | a new prefetcher starts with an empty VPN table, LRU filter and filter table, throttling off, no source filtered, and the granularity's bit count |
| `Cdp.CdpPrefetcher.NotifyWithData` | src/mem/cache/prefetch/cdp.cc:202-329 | the new throttling flag, table, filter and queue are those of the specified outcome, which scans with the source's alignment test as written (`AlignHiAsWritten`, the 5% test first), and the table keeps its entries |
| `Cdp.CdpPrefetcher.AddToVpnTable` | src/mem/cache/prefetch/cdp.cc:363-375 | the table and its counter become `add` at the address's region followed by a confidence reset |
| `Cdp.CdpPrefetcher.InsertFilterTable` | src/mem/cache/prefetch/cdp.cc:377-398 | the filter table becomes the specified insert step |
| `Cdp.CdpPrefetcher.RecordUsedPrefetch` | src/mem/cache/prefetch/cdp.cc:419-427 | a used prefetch steps its slot down, needs no victim, and leaves the address unfiltered |
| `Cdp.CdpPrefetcher.RecordUnusedPrefetch` | src/mem/cache/prefetch/cdp.cc:429-437 | an unused prefetch steps its slot up, allocating from the victim on a miss |
| `Cdp.CdpPrefetcher.PfHitNotify` | src/mem/cache/prefetch/cdp.cc:331-344 | the source is filtered exactly when its accuracy is below 10%, the block is scanned as an L1 use, and the virtual address, if any, is added to the VPN table |
| `Cdp.CdpPrefetcher.ScanOnHit` | src/mem/cache/prefetch/cdp.cc:141-183 | a hit sends and updates as the pointers of the first eight words, found in the table before any update, require |
| `Cdp.CdpPrefetcher.RecordDemand` | src/mem/cache/prefetch/cdp.cc:188-191 | a demand access records a used prefetch and adds its address to the VPN table |
| `Cdp.CdpPrefetcher.CalculatePrefetch` | src/mem/cache/prefetch/cdp.cc:123-193 | a hit from a filtered prefetcher changes nothing; otherwise the hit's sends happen, and only a demand access records a used prefetch and adds to the VPN table |
| `IssueQueue.Enqueue` | src/cpu/o3/issue_queue.cc:70-74 | a push onto a ready queue keeps it ordered oldest first and adds exactly the instruction |
| `IssueQueue.PushClass` | src/cpu/o3/issue_queue.cc:369-372 | a push adds the instruction to the ready queue its op class maps to, and to no other |
| `IssueQueue.AddIfReadyQPushes` | src/cpu/o3/issue_queue.cc:349-375 | an instruction that is ready (and, for a memory reference, has its dependence solved) is no longer canceled, is marked as in a ready queue, and is pushed exactly when it was not marked before; any other is left alone |
| `IssueQueue.DrainCount` | src/cpu/o3/issue_queue.cc:271-276 | the replay drain sends at most the waiting instructions, all of them or up to the port count when counting starts below it, none otherwise |
| `IssueQueue.EmptyStream` | src/cpu/o3/issue_queue.cc:457-459 | a stage the time buffer clears holds no instruction |
| `IssueQueue.StreamPush` | src/cpu/o3/issue_queue.cc:76-81 | a push below the eight slots appends the instruction to the stage's live slots |
| `IssueQueue.StreamPop` | src/cpu/o3/issue_queue.cc:83-87 | a pop of a non-empty stage returns the last pushed slot and removes it |
| `IssueQueue.NullOutStream` | src/cpu/o3/issue_queue.cc:566-574 | the slots of dead instructions are emptied; the others and the stage size are unchanged |
| `IssueQueue.NullOutStages` | src/cpu/o3/issue_queue.cc:566-574 | the same for every issue stage |
| `IssueQueue.WakeDelay` | src/cpu/o3/issue_queue.cc:875-885 | a consumer woken after the delay reaches execution no earlier than its producer's result, exactly then whenever the delay can absorb the stage difference, and the delay is never negative |
| `IssueQueue.InsertReadyBits` | src/cpu/o3/issue_queue.cc:494-507 | `insert` keeps every ready source ready, and a source it leaves not ready is one that waits on its register |
| `IssueQueue.AddEdgesLists` | src/cpu/o3/issue_queue.cc:494-507 | `insert` grows only the waited registers' dependency lists, each by its own entries in order |
| `IssueQueue.RegisterSources` | src/cpu/o3/issue_queue.cc:494-507 | the source loop of `insert` computes the specified ready bits and dependency lists, and reports a waiting source exactly when one exists |
| `IssueQueue.WaitListEmpty` | src/cpu/o3/issue_queue.cc:494-507 | no dependency entry is added exactly when no source waits |
| `IssueQueue.NoWaitIsReady` | src/cpu/o3/issue_queue.cc:511-513 | an instruction none of whose sources waits is ready to issue once inserted (the assert of `insert` holds) |
| `IssueQueue.InsertNoLostWakeup` | src/cpu/o3/issue_queue.cc:494-507 | every source `insert` leaves not ready has an entry in its register's dependency list, so no wake-up is lost |
| `IssueQueue.InsertedNoWait` | src/cpu/o3/issue_queue.cc:484-529 | an instruction with no waiting source leaves `insert` ready to issue and, unless a memory reference, in the ready queue of its class |
| `IssueQueue.InsertKeeps` | src/cpu/o3/issue_queue.cc:484-529 | `insert` keeps every reference valid and the counters exact: one more for both counters unless the instruction is an FMA multiply |
| `IssueQueue.ClearWoken` | src/cpu/o3/issue_queue.cc:343-345 | a writeback wake-up empties exactly the dependency lists of the registers it wakes |
| `IssueQueue.WakeOne` | src/cpu/o3/issue_queue.cc:329-341 | waking one entry only sets ready bits and passes through `addIfReady`, keeping the ready queues consistent |
| `IssueQueue.WakeAllWakes` | src/cpu/o3/issue_queue.cc:329-341 | every woken entry's source is ready afterwards |
| `IssueQueue.WakeAllOnly` | src/cpu/o3/issue_queue.cc:329-341 | a ready bit the wake-up sets belongs to one of the woken entries |
| `IssueQueue.WakeConsumers` | src/cpu/o3/issue_queue.cc:329-341 | the wake-up loop computes the specified in-order wake of the entries |
| `IssueQueue.WakeKeeps` | src/cpu/o3/issue_queue.cc:313-347 | a wake-up keeps every reference valid and the counters exact |
| `IssueQueue.CountsAdd` | src/cpu/o3/issue_queue.cc:486-491 | a new counted instruction adds one to `instNum` and to its class's count, keeping both exact |
| `IssueQueue.CountsAddExempt` | src/cpu/o3/issue_queue.cc:486 | a new FMA multiply leaves the counters exact without changing them |
| `IssueQueue.CountsRemove` | src/cpu/o3/issue_queue.cc:31-39 | when a counted instruction stops being counted both counters `POPINST` decrements are non-zero and stay exact |
| `IssueQueue.CountsKeep` | src/cpu/o3/issue_queue.cc:31-39 | a record whose counted status and class stay the same leaves the counters exact |
| `IssueQueue.RefsAdd` | src/cpu/o3/issue_queue.cc:484-529 | adding a record keeps every reference valid |
| `IssueQueue.IssueKeeps` | src/cpu/o3/issue_queue.cc:231-240 | marking an unissued instruction issued keeps references valid and takes it off both counters, which are non-zero, unless it is an FMA multiply |
| `IssueQueue.DropCanceledSpec` | src/cpu/o3/issue_queue.cc:382-389 | dropping canceled tops pops a prefix of the queue, every popped instruction was canceled, and the new top is not |
| `IssueQueue.DropCanceledFlags` | src/cpu/o3/issue_queue.cc:382-389 | dropping canceled tops changes in-ready-queue flags alone |
| `IssueQueue.SelectPortFrame` | src/cpu/o3/issue_queue.cc:377-414 | one port's selection changes in-ready-queue flags alone, leaves the other ready queues alone, keeps its queue ordered and adds at most one selection, for that port |
| `IssueQueue.SelectPortOldest` | src/cpu/o3/issue_queue.cc:377-414 | a port selects nothing only when every entry of its queue was canceled, and otherwise the oldest instruction of the queue that is not canceled |
| `IssueQueue.SelectAllFrame` | src/cpu/o3/issue_queue.cc:377-414 | selection over all the ports changes in-ready-queue flags alone and keeps every ready queue ordered |
| `IssueQueue.SelectAllPorts` | src/cpu/o3/issue_queue.cc:377-414 | selection picks at most one instruction per port, each with a record, in increasing port order |
| `IssueQueue.DropLoop` | src/cpu/o3/issue_queue.cc:382-389 | the loop that pops canceled tops computes the specified drop |
| `IssueQueue.ArbitrateLoop` | src/cpu/o3/issue_queue.cc:395-407 | the source loop of a selection asks for the specified read ports |
| `IssueQueue.SelectPortStep` | src/cpu/o3/issue_queue.cc:380-412 | one port's step selects as specified and asks for read ports only for the instruction it selected |
| `IssueQueue.SelectLoop` | src/cpu/o3/issue_queue.cc:377-414 | the port loop selects as specified over all the ports, and asks for the read ports of every selection |
| `IssueQueue.FlagsKeep` | src/cpu/o3/issue_queue.cc:377-414 | changing in-ready-queue flags alone keeps every reference valid and the counters exact |
| `IssueQueue.SquashFlags` | src/cpu/o3/issue_queue.cc:553-561 | a squashed instruction keeps its fixed part and ready bits and is no longer counted |
| `IssueQueue.SquashStep` | src/cpu/o3/issue_queue.cc:552-566 | one list entry is kept exactly when it is not younger than the squash point, and the counters stay exact and only decrease |
| `IssueQueue.SquashAll` | src/cpu/o3/issue_queue.cc:552-566 | the squash loop keeps the records, the port count and exact counters that only decrease |
| `IssueQueue.Survivors` | src/cpu/o3/issue_queue.cc:552-566 | the entries kept are exactly those of the list not younger than the squash point |
| `IssueQueue.SquashKept` | src/cpu/o3/issue_queue.cc:552-566 | the list keeps exactly its entries not younger than the squash point, in their order |
| `IssueQueue.SquashMarks` | src/cpu/o3/issue_queue.cc:553-561 | every younger list entry ends flagged as squashed; every other record is as it was |
| `IssueQueue.SquashPorts` | src/cpu/o3/issue_queue.cc:559-563 | the squash only frees ports, and frees the port of every younger instruction that had issued |
| `IssueQueue.SquashList` | src/cpu/o3/issue_queue.cc:552-566 | the squash loop computes the specified squash of the list |
| `IssueQueue.SquashOne` | src/cpu/o3/issue_queue.cc:553-564 | the loop body computes the specified step |
| `IssueQueue.KeepEdges` | src/cpu/o3/issue_queue.cc:578-587 | a dependency list keeps exactly the entries of consumers that are not squashed |
| `IssueQueue.KeepGraph` | src/cpu/o3/issue_queue.cc:576-589 | every dependency list loses exactly its squashed consumers |
| `IssueQueue.SquashKeeps` | src/cpu/o3/issue_queue.cc:550-590 | the squash keeps every reference valid |
| `IssueQueue.CancelOne` | src/cpu/o3/issue_queue.cc:954-1006 | revoking one entry keeps the set of records |
| `IssueQueue.CancelAll` | src/cpu/o3/issue_queue.cc:954-1006 | the edge loop keeps the set of records and pushes only recorded instructions |
| `IssueQueue.CancelOneBits` | src/cpu/o3/issue_queue.cc:954-1006 | a revoked entry clears exactly one ready bit, which was set |
| `IssueQueue.CancelAllBits` | src/cpu/o3/issue_queue.cc:954-1006 | every pushed consumer costs one ready bit, which bounds the depth-first search of `loadCancel` |
| `IssueQueue.CancelAllLess` | src/cpu/o3/issue_queue.cc:954-1006 | a record only loses ready bits and gains the cancel flag |
| `IssueQueue.CancelAllCanceled` | src/cpu/o3/issue_queue.cc:954-1006 | a record that was canceled, or lost a ready bit, is canceled afterwards |
| `IssueQueue.CancelAllClears` | src/cpu/o3/issue_queue.cc:954-1006 | after the loop no entry of the list leaves its consumer's source ready, and every consumer whose source was revoked is canceled |
| `IssueQueue.CancelStepKeeps` | src/cpu/o3/issue_queue.cc:954-1006 | canceling keeps every reference valid and the counters exact |
| `IssueQueue.ClosedStep` | src/cpu/o3/issue_queue.cc:954-1006 | canceling never marks a source ready again, so a list with no revocable entry stays so |
| `IssueQueue.CancelAllFacts` | src/cpu/o3/issue_queue.cc:954-1006 | the edge loop only cancels, leaves no revocable entry in the list, and returns every instruction it newly canceled |
| `IssueQueue.CancelAllPushes` | src/cpu/o3/issue_queue.cc:954-1006 | an instruction the loop cancels is one it returns |
| `IssueQueue.CancelLoop` | src/cpu/o3/issue_queue.cc:954-1006 | the edge loop of `loadCancel` computes the specified cancel of the list |
| `IssueQueue.CancelAllFixed` | src/cpu/o3/issue_queue.cc:954-1006 | a fixed-mapped source stays ready, so records stay well formed |
| `IssueQueue.DecodeReadPorts` | src/cpu/o3/issue_queue.cc:130-144 | the decoded read ports of one register file are no more than the encodings, each with a type-port id of that file and a priority below 4 |
| `IssueQueue.CountDown` | src/cpu/o3/issue_queue.cc:454-456 | a busy count goes down by one while positive and stays put otherwise |
| `IssueQueue.ClassifyPorts` | src/cpu/o3/issue_queue.cc:174-188 | every op class of a port maps to that port's ready queue (queue 0 when all ports are alike) and to nothing out of range, with a pipelined flag for exactly the classified ops |
| `IssueQueue.Inserted` | src/cpu/o3/issue_queue.cc:484-529 | `insert` updates only the ready bits (as specified), the queue index, and the flags `addIfReady` sets |
| `IssueQueue.AdvanceStages` | src/cpu/o3/issue_queue.cc:459 | advancing moves every stage one on and starts stage 0 empty |
| `IssueQueue.AdvanceReaches` | src/cpu/o3/issue_queue.cc:118-120 | what stage i holds reaches stage i + k after k advances; `toIssue` reaches `toFu` after `scheduleToExecDelay` of them |
| `IssueQueue.CommitRun` | src/cpu/o3/issue_queue.cc:541-548 | `doCommit` retires exactly the front run of the list up to the commit point |
| `IssueQueue.CountDownPorts` | src/cpu/o3/issue_queue.cc:454-456 | the count-down loop steps every port's count down as specified |
| `IssueQueue.IssueQue.constructor` | src/cpu/o3/issue_queue.cc:111-190 | a new queue has one ready queue for identical ports or one per port, every op class mapped to its port's queue, the decoded read ports, no instruction, free ports and empty stages |
| `IssueQueue.IssueQue.Ready` | src/cpu/o3/issue_queue.cc:463-482 | a ready queue has room for one more counted instruction and insertion bandwidth left |
| `IssueQueue.IssueQue.EmptyEntries` | src/cpu/o3/issue_queue.hh:161 | the free entries are between 0 and the size, and zero exactly when the queue is full |
| `IssueQueue.IssueQue.Idle` | src/cpu/o3/issue_queue.cc:291-302 | `idle()` is true exactly when some ready queue or the replay queue holds an instruction |
| `IssueQueue.IssueQue.ClearBusy` | src/cpu/o3/issue_queue.hh:151 | port pi is freed when it exists; an index out of range is an error and changes nothing |
| `IssueQueue.IssueQue.Insert` | src/cpu/o3/issue_queue.cc:484-529 | the counters grow by one unless the instruction is an FMA multiply, it is appended to the list, its waiting sources join the dependency lists, and its record and the ready queues are those `insert` specifies |
| `IssueQueue.IssueQue.MarkMemDepDone` | src/cpu/o3/issue_queue.cc:304-311 | the memory dependence is marked solved and the instruction goes through `addIfReady` |
| `IssueQueue.IssueQue.SelectInst` | src/cpu/o3/issue_queue.cc:377-414 | the records, ready queues and selection are the specified selection over all the ports, each selection on a recorded instruction and an existing port, with its read ports requested |
| `IssueQueue.IssueQue.ScheduleOne` | src/cpu/o3/issue_queue.cc:420-441 | a canceled selection is dropped, one that failed arbitration is pushed back to its ready queue, and any other leaves the queue, enters stage 0 with its port and is returned for wake-up; every selection's arbitration flag is cleared |
| `IssueQueue.IssueQue.DoSquash` | src/cpu/o3/issue_queue.cc:550-590 | the list keeps exactly the entries not younger than the point, younger ones are flagged squashed and leave the counters or free their port, the stages drop and the dependency lists erase every squashed instruction |
| `IssueQueue.IssueQue.SetCancel` | src/cpu/o3/issue_queue.cc:954-1006 | only the instruction's cancel flag is set |
| `IssueQueue.IssueQue.SetArbFailed` | src/cpu/o3/issue_queue.cc:925-952 | only the instruction's arbitration-failed flag is set |
| `IssueQueue.IssueQue.ClearCanceledStages` | src/cpu/o3/issue_queue.cc:996-1005 | the issue stages drop every canceled instruction and nothing else |
| `IssueQueue.IssueQue.Replay` | src/cpu/o3/issue_queue.cc:251-258 | an instruction whose port is busy is marked as in a ready queue and pushed back to its class's queue |
| `IssueQueue.IssueQue.AddToFu` | src/cpu/o3/issue_queue.cc:231-240 | an instruction issued twice is an error that changes nothing; otherwise it is marked issued and leaves both counters, which were non-zero, unless it is an FMA multiply |
| `IssueQueue.IssueQue.RetryMem` | src/cpu/o3/issue_queue.cc:282-289 | a retried memory instruction joins the back of the replay queue |
| `IssueQueue.IssueQue.SetPortBusy` | src/cpu/o3/issue_queue.cc:266-269 | a non-pipelined op keeps its port busy for its latency less one |
| `IssueQueue.IssueQue.DrainReplay` | src/cpu/o3/issue_queue.cc:271-276 | the oldest replayed instructions are sent, as many as the drain count allows, and the rest stay queued in order |
| `IssueQueue.IssueQue.TickCounters` | src/cpu/o3/issue_queue.cc:445-456 | the insertions of the cycle are forgotten and every busy port counts down |
| `IssueQueue.IssueQue.Advance` | src/cpu/o3/issue_queue.cc:459 | the issue stages advance one step |
| `IssueQueue.IssueQue.PopToFu` | src/cpu/o3/issue_queue.cc:244-250 | a pop from the stage that reached the units returns its last live slot, a recorded instruction or none, and changes no other stage |
| `IssueQueue.IssueQue.DoCommit` | src/cpu/o3/issue_queue.cc:541-548 | the front run of the list up to the commit point leaves it, each of its instructions having issued |
| `IssueQueue.IssueQue.SpecWake` | src/cpu/o3/issue_queue.cc:313-347 | a canceled producer wakes nothing; otherwise its woken entries are woken in order and the lists stay |
| `IssueQueue.IssueQue.WritebackWake` | src/cpu/o3/issue_queue.cc:313-347 | the woken entries are woken in order whatever the producer's cancel flag, and the woken lists are emptied |
| `IssueQueue.UseRegfilePort` | src/cpu/o3/issue_queue.cc:916-952 | an integer register found in the register cache claims nothing; otherwise the larger priority value keeps the port, the requester on a tie, and the loser is recorded as failed; other ports are untouched, an integer register ends in the cache, and the cache keeps its bound |
| `IssueQueue.LargerPriorityWins` | src/cpu/o3/issue_queue.cc:916-952 | of two requests for a free port, in either order, the larger priority holds it and the other is the one recorded as failed |
| `IssueQueue.ClearInReadyQ` | src/cpu/o3/issue_queue.cc:387-388 | clearing the flag keeps the set of records |
| `IssueQueue.DropCanceled` | src/cpu/o3/issue_queue.cc:382-389 | dropping canceled tops keeps the records, leaves a queue of recorded instructions and never lengthens it |
| `IssueQueue.SelectPort` | src/cpu/o3/issue_queue.cc:380-412 | one port's selection keeps the records and the number of ready queues, which name recorded instructions only |
| `IssueQueue.SelectAll` | src/cpu/o3/issue_queue.cc:377-414 | selection over the ports keeps the records and the number of ready queues, which name recorded instructions only |
| `IssueScheduler.AddQueueDescsDisp` | src/cpu/o3/issue_queue.cc:632-639 | one queue's descriptions add that queue to the dispatch list of exactly the classes it lists and leave every other class's entries alone |
| `IssueScheduler.BuildTablesDisp` | src/cpu/o3/issue_queue.cc:627-640 | a class's dispatch list names exactly the queues that list it, and a class has a latency exactly when some queue lists it |
| `IssueScheduler.BuildTablesBounds` | src/cpu/o3/issue_queue.cc:627-640 | every dispatch list names existing queues |
| `IssueScheduler.AddQueueDescsLast` | src/cpu/o3/issue_queue.cc:632-638 | within one queue, the last description of a class sets its latency and pipelining |
| `IssueScheduler.BuildTablesLast` | src/cpu/o3/issue_queue.cc:627-640 | a class's latency and pipelining are those of its last description, in the last queue that lists it |
| `IssueScheduler.Xbar` | src/cpu/o3/issue_queue.cc:681-687 | in the cross-bar every queue wakes every queue, in order |
| `IssueScheduler.Known` | src/cpu/o3/issue_queue.cc:668-679 | the destinations kept are exactly the listed names that resolve to a queue |
| `IssueScheduler.Network` | src/cpu/o3/issue_queue.cc:688-700 | the configured network has one row per queue |
| `IssueScheduler.NetworkMembers` | src/cpu/o3/issue_queue.cc:688-700 | queue s wakes queue d exactly when d exists and some channel from s lists it |
| `IssueScheduler.NetworkBounds` | src/cpu/o3/issue_queue.cc:688-700 | every row of the network names existing queues |
| `IssueScheduler.WakeMatrix` | src/cpu/o3/issue_queue.cc:680-701 | the wake-up matrix has one row per queue and names existing queues only |
| `IssueScheduler.BuildTablesLoop` | src/cpu/o3/issue_queue.cc:627-640 | the constructor's loops build the specified tables |
| `IssueScheduler.BuildWakeMatrix` | src/cpu/o3/issue_queue.cc:680-701 | the constructor's loops build the specified matrix |
| `IssueScheduler.FindDst` | src/cpu/o3/issue_queue.cc:795-802 | the search of one list returns the first instruction whose first destination is the register, or the list's end when none has it |
| `IssueScheduler.Tag` | src/cpu/o3/issue_queue.cc:954-1006 | tagging keeps every instruction, in order, with its queue |
| `IssueScheduler.HasReadyInstsInverted` | src/cpu/o3/issue_queue.cc:1058-1067 | a queue holding one ready instruction is reported as having none, and an empty queue as having one |
| `IssueScheduler.ClearRegs` | src/cpu/o3/issue_queue.cc:1013-1019 | the scoreboard loop makes exactly the destinations that are not fixed-mapped ready |
| `IssueScheduler.CancelRegVals` | src/cpu/o3/issue_queue.cc:976-993 | the revocation of one register's entries in every queue only cancels, leaves none of its entries revocable, uses up one ready bit per push, and pushes every instruction it newly cancels |
| `IssueScheduler.CancelTopVals` | src/cpu/o3/issue_queue.cc:969-994 | the destinations of a popped instruction that are not fixed-mapped lose their early-ready bit and have no revocable entry left, with the same accounting |
| `IssueScheduler.NewlyKept` | src/cpu/o3/issue_queue.cc:966-995 | one step of the search keeps every canceled instruction either on the stack or with its destinations cleared |
| `IssueScheduler.SearchNext` | src/cpu/o3/issue_queue.cc:966-995 | one step of the search keeps its invariant |
| `IssueScheduler.CancelSearch` | src/cpu/o3/issue_queue.cc:965-995 | the search terminates; every instruction canceled on the way, and the load itself, has its destinations cleared from the early scoreboard with no dependency entry left to revoke |
| `IssueScheduler.LoadCancelSearch` | src/cpu/o3/issue_queue.cc:954-995 | the search from a newly canceled load only cancels and leaves the state `loadCancel` promises |
| `IssueScheduler.LoadCancelFacts` | src/cpu/o3/issue_queue.cc:954-995 | after the search the load is canceled and every instruction newly canceled has its destinations cleared |
| `IssueScheduler.DelayedLoop` | src/cpu/o3/issue_queue.cc:875-901 | the loop over a wake-up row creates exactly the specified delayed events, in row order |
| `IssueScheduler.FirstOffBypass` | src/cpu/o3/issue_queue.cc:209-216 | the loop finds the first non-fixed source whose bypass entry is false, or none exactly when every source can be read from the bypass network |
| `IssueScheduler.CancelStepsIssued` | src/cpu/o3/issue_queue.cc:983 | canceling never changes whether an instruction has issued |
| `IssueScheduler.ArbitrateSelRefs` | src/cpu/o3/issue_queue.cc:748-751 | the read-port requests of a queue's selections name only instructions of the queues |
| `IssueScheduler.Wrap` | src/cpu/o3/issue_queue.cc:76-81 | the slots of a stage filled by pushes hold exactly the pushed instructions, in order |
| `IssueScheduler.Scheduler.constructor` | src/cpu/o3/issue_queue.cc:618-723 | a new scheduler holds the queues, the specified tables and wake-up matrix, every scoreboard entry ready, no port claimed and nothing for the units |
| `IssueScheduler.Scheduler.ReadyFor` | src/cpu/o3/issue_queue.cc:762-776 | `ready(inst)` holds exactly when some queue of the class's dispatch list is ready |
| `IssueScheduler.Scheduler.FullFor` | src/cpu/o3/issue_queue.cc:778-791 | `full(inst)` holds exactly when every queue of the class's dispatch list is full |
| `IssueScheduler.Scheduler.GetInstByDstReg` | src/cpu/o3/issue_queue.cc:793-804 | the first instruction, queue by queue and in list order, whose first destination is the register; none exactly when no instruction has it |
| `IssueScheduler.Scheduler.AddProducer` | src/cpu/o3/issue_queue.cc:806-820 | every destination that is not fixed-mapped becomes not ready in all three scoreboards |
| `IssueScheduler.Scheduler.GetInstToFU` | src/cpu/o3/issue_queue.cc:905-914 | the last instruction added is handed out first, and none when there is none |
| `IssueScheduler.Scheduler.IsDrained` | src/cpu/o3/issue_queue.cc:1069-1078 | drained exactly when every queue's list is empty |
| `IssueScheduler.Scheduler.GetIQInsts` | src/cpu/o3/issue_queue.cc:1097-1105 | the sum of the queues' counts, modulo 2^32 |
| `IssueScheduler.Scheduler.HasReadyInsts` | src/cpu/o3/issue_queue.cc:1058-1067 | true exactly when some queue has an instruction in a ready queue or its replay queue |
| `IssueScheduler.Scheduler.Stages` | src/cpu/o3/issue_queue.cc:879-884 | the issue-stage count of every queue |
| `IssueScheduler.Scheduler.SpecWakeUp` | src/cpu/o3/issue_queue.cc:868-903 | only a pipelined op with a destination, other than a vector load, wakes; the delayed wake-ups are returned in row order, the destinations become early-ready when some queue is woken now, and queues not woken now are unchanged |
| `IssueScheduler.Scheduler.WakeRow` | src/cpu/o3/issue_queue.cc:875-901 | the queues of a row not woken now are unchanged |
| `IssueScheduler.Scheduler.WritebackWakeup` | src/cpu/o3/issue_queue.cc:1008-1024 | the destinations become ready in the scoreboard; every queue's records and ready queues are those of waking, from the old state, the consumers its lists hold for the destinations, and those lists are emptied |
| `IssueScheduler.Scheduler.BypassWriteback` | src/cpu/o3/issue_queue.cc:1026-1042 | the instruction's port, if it had one, is freed and its destinations become readable from the bypass network |
| `IssueScheduler.Scheduler.InsertNonSpec` | src/cpu/o3/issue_queue.cc:854-866 | the first ready queue of the class's dispatch list takes the instruction, and none does exactly when no queue is ready |
| `IssueScheduler.Scheduler.Insert` | src/cpu/o3/issue_queue.cc:822-852 | the dispatch list takes the new order, the first ready queue in it takes the instruction, marked as in an issue queue, and for an integer op that queue holds the fewest instructions of the class among the ready ones |
| `IssueScheduler.Scheduler.FirstReady` | src/cpu/o3/issue_queue.cc:827-846 | the first ready queue of the order, one with the fewest instructions of the class for an integer op |
| `IssueScheduler.Scheduler.DoCommit` | src/cpu/o3/issue_queue.cc:1080-1086 | every queue drops the front run of its list up to the commit point |
| `IssueScheduler.Scheduler.DoSquash` | src/cpu/o3/issue_queue.cc:1088-1095 | every queue keeps exactly its list entries not younger than the squash point |
| `IssueScheduler.Scheduler.LoadCancel` | src/cpu/o3/issue_queue.cc:954-1006 | an already canceled load changes nothing; otherwise the load and, transitively, every consumer with a source it marked ready are canceled, their destinations lose their early-ready bit with no entry left to revoke, and every issue stage drops its canceled instructions |
| `IssueScheduler.Scheduler.CancelFrom` | src/cpu/o3/issue_queue.cc:960-1005 | the same for a load not yet canceled |
| `IssueScheduler.Scheduler.ClearStages` | src/cpu/o3/issue_queue.cc:996-1005 | every queue's issue stages drop their canceled instructions and keep their sizes |
| `IssueScheduler.Scheduler.CheckScoreboard` | src/cpu/o3/issue_queue.cc:207-229 | passes exactly when every non-fixed source can be read from the bypass network; otherwise the producer of the first source that cannot is found and canceled if it is a load, and anything else is the panic |
| `IssueScheduler.Scheduler.CancelProducer` | src/cpu/o3/issue_queue.cc:215-224 | a missing producer, or one that is not a load, is the panic and changes nothing; a load is canceled |
| `IssueScheduler.Scheduler.ReplayIn` | src/cpu/o3/issue_queue.cc:251-258 | the instruction is marked as in a ready queue and pushed back to its class's queue |
| `IssueScheduler.Scheduler.SendToFu` | src/cpu/o3/issue_queue.cc:262-269 | an instruction not issued before is marked issued, appended to the units' list, and a non-pipelined op keeps its port busy for its latency less one; one issued twice is the panic and changes nothing |
| `IssueScheduler.Scheduler.IssueOne` | src/cpu/o3/issue_queue.cc:246-270 | an instruction with no port is a fault; one whose port is busy is replayed; otherwise it goes to the units exactly when the scoreboard check passes and it had not issued |
| `IssueScheduler.Scheduler.ScoreAndSend` | src/cpu/o3/issue_queue.cc:259-269 | the instruction goes to the units when the scoreboard check passes and it had not issued, and nothing else is sent |
| `IssueScheduler.Scheduler.PopFrom` | src/cpu/o3/issue_queue.cc:246-247 | a pop takes one slot off the stage that reached the units and returns a recorded instruction or none |
| `IssueScheduler.Scheduler.DrainFrom` | src/cpu/o3/issue_queue.cc:271-276 | the oldest replayed instructions, as many as the drain count allows, go to the units in order and the rest stay queued |
| `IssueScheduler.Scheduler.IssueToFu` | src/cpu/o3/issue_queue.cc:242-280 | the stage that reached the units is emptied, at most its size is issued, the drain follows, and the units receive the issued then the drained instructions in order |
| `IssueScheduler.Scheduler.IssueAndSelect` | src/cpu/o3/issue_queue.cc:743-760 | every queue's stage to the units is emptied, instructions are only added for the units, every instruction that lost a read port is marked, and the ports are free again |
| `IssueScheduler.Scheduler.SelectPhase` | src/cpu/o3/issue_queue.cc:748-759 | selection marks every loser of arbitration, frees the ports and leaves the issue stages alone |
| `IssueScheduler.Scheduler.ReleasePorts` | src/cpu/o3/issue_queue.cc:757-759 | no port is claimed and no failure is left |
| `IssueScheduler.Scheduler.IssueAll` | src/cpu/o3/issue_queue.cc:745-747 | every queue's stage to the units is emptied and instructions are only added for the units |
| `IssueScheduler.Scheduler.SelectEvery` | src/cpu/o3/issue_queue.cc:748-751 | every queue selects, sharing the arbiter, and keeps its instructions |
| `IssueScheduler.Scheduler.SelectOne` | src/cpu/o3/issue_queue.cc:748-751 | one queue's selection keeps its instructions, selects only recorded instructions on existing ports and asks for their read ports |
| `IssueScheduler.Scheduler.FlagFailed` | src/cpu/o3/issue_queue.cc:753-756 | every instruction that failed arbitration is marked |
| `IssueScheduler.Scheduler.Tick` | src/cpu/o3/issue_queue.cc:735-741 | every queue ticks, forgetting its insertions of the cycle |
| `IssueScheduler.Scheduler.TickQueue` | src/cpu/o3/issue_queue.cc:445-460 | the insertions are forgotten and every busy port counts down; the records, ready queues and early scoreboard become `ScheduleAll` of the queue's selections from those at the start of the tick, with the delayed wake-ups returned; the instructions scheduled enter stage 1 in selection order, every later stage takes what the one before it held, and no other queue's stages or insertion count change |
| `IssueScheduler.Scheduler.ScheduleInst` | src/cpu/o3/issue_queue.cc:417-443 | the records, ready queues and early scoreboard become `ScheduleAll` of the selections (each handled in turn by `ScheduleStep`) from those at the start, with the delayed wake-ups returned; stage 0 receives exactly the instructions scheduled, in selection order, and no other stage of any queue changes |
| `IssueScheduler.Scheduler.ScheduleIn` | src/cpu/o3/issue_queue.cc:420-441 | the selection's record becomes `ScheduledRecords` of it: arbitration flag cleared, a retried instruction marked as in a ready queue, a scheduled one out of the queue with its port; a retried instruction is pushed back to its ready queue and the ready queues change in no other way; a canceled selection, or one that failed arbitration, is not scheduled, and any other enters stage 0 and is returned |
| `IssueScheduler.Scheduler.ScheduleAdvance` | src/cpu/o3/issue_queue.cc:458-459 | `scheduleInst` as `ScheduleInst` states it, then stage 1 holds what was scheduled and every later stage what the one before it held |
| `IssueScheduler.Scheduler.ScheduleRound` | src/cpu/o3/issue_queue.cc:419-442 | after the (k+1)-th selection the scheduler holds `ScheduleAll` of the first k+1 selections, and stage 0 holds what they scheduled |
| `IssueScheduler.Scheduler.ScheduleNext` | src/cpu/o3/issue_queue.cc:420-441 | one selection takes the scheduler's records, ready queues and early scoreboard from s to `ScheduleStep` of s, and adds to stage 0 the instruction it schedules |
| `IssueScheduler.Scheduler.EntryNext` | src/cpu/o3/issue_queue.cc:423-435 | the records and ready queues become those of `ScheduleEntry`, and the selection is scheduled exactly when its record `Schedules` (neither canceled nor arbitration-failed) |
| `IssueScheduler.Scheduler.WakeNext` | src/cpu/o3/issue_queue.cc:437 | the speculative wake-up of a scheduled instruction takes the scheduler from e to `SpecWakeState` of e and leaves the issue stages alone |
| `IssueScheduler.Scheduler.WakeScheduled` | src/cpu/o3/issue_queue.cc:868-902 | `specWakeUpDependents` takes the records, ready queues and early scoreboard from s to `SpecWakeState` of s for the record the instruction had, and the delayed wake-ups it leaves are appended to the events |
| `IssueScheduler.Scheduler.SpecWakeKeeps` | src/cpu/o3/issue_queue.cc:868-902 | a speculative wake-up removes no record and changes no arbitration-failed or in-queue flag |
| `IssueScheduler.Scheduler.StepKeeps` | src/cpu/o3/issue_queue.cc:420-441 | one entry keeps every record and no clear arbitration-failed or in-queue flag is set; the selection's arbitration flag ends clear (`clearArbFailed`), and a scheduled instruction ends out of the queue (`clearInIQ`) |
| `IssueScheduler.Scheduler.AllKeeps` | src/cpu/o3/issue_queue.cc:419-442 | `scheduleInst` removes no record, and sets no arbitration-failed or in-queue flag it found clear |
| `IssueScheduler.Scheduler.AllInOrder` | src/cpu/o3/issue_queue.cc:419-442 | the instructions scheduled are selected ones, in selection order, appended after those scheduled before |
| `IssueScheduler.Scheduler.AllSchedulesAtTurn` | src/cpu/o3/issue_queue.cc:423-437 | a selection whose record is neither canceled nor arbitration-failed when the loop reaches it is scheduled |
| `IssueScheduler.Scheduler.AllClearArbFailed` | src/cpu/o3/issue_queue.cc:419-442 | every selected instruction with a record ends with its arbitration-failed flag clear |
| `IssueScheduler.Scheduler.AllScheduledLeave` | src/cpu/o3/issue_queue.cc:431-436 | every instruction scheduled ends with a record out of the queue |
| `IssueQueue.AddIfReadyQ` | src/cpu/o3/issue_queue.cc:349-375 | `addIfReady` changes only the canceled and in-ready-queue flags of the record, never its sources, and keeps every ready queue sorted and holding only instructions of its class |
| `IssueQueue.WakeAll` | src/cpu/o3/issue_queue.cc:329-341 | waking a dependency list in order keeps the ready queues consistent and only sets ready bits |
| `IssueQueue.WaitListConsumer` | src/cpu/o3/issue_queue.cc:494-507 | every dependency entry `insert` appends names the inserted instruction |
| `IssueQueue.WaitListHas` | src/cpu/o3/issue_queue.cc:494-507 | every waiting source of the inserted instruction gets an entry in its register's dependency list |
| `FuScheduler.KunminghuNames` | configs/common/FUScheduler.py:98-154 | the Kunminghu queues are named, in order, intIQ0-3, load0-2, store0-1, fpIQ0-4 and vecIQ0 |
| `FuScheduler.KunminghuNameListDistinct` | configs/common/FUScheduler.py:98-154 | those fifteen names are pairwise distinct |
| `Common.LruInsert` | src/mem/cache/prefetch/cdp.cc:346-361 | inserting a key into the de-duplication filter: a present key leaves the filter as it is; an absent one becomes the most recent, evicting the least recent when the filter is full, so the filter never exceeds its capacity and never holds a key twice |
| `Common.LruTouch` | src/cpu/o3/issue_queue.cc:928-929 | a lookup that finds a key makes it the most recent and keeps the same keys |
| `Common.LruInsertAll` | src/mem/cache/prefetch/cdp.cc:168-182 | after a run of inserts the filter stays within its capacity and holds the last key inserted |
| `Common.LruInsertAllKeys` | src/mem/cache/prefetch/cdp.cc:168-182 | after a run of inserts every key was there before or was inserted |
| `Common.NatToString` | src/cpu/o3/perfCCT.cc:64-83 | a number streams as at least one decimal digit, with no leading zero |
| `Common.NatToStringRoundTrip` | src/cpu/o3/perfCCT.cc:64-83 | reading the streamed digits back gives the number |
| `Common.NatToStringInjective` | src/cpu/o3/perfCCT.cc:64-83 | distinct numbers stream as distinct digit strings |
| `Common.IntToString` | src/arch/riscv/insts/mem.cc:47-63 | a signed offset streams as decimal digits, preceded by a minus sign exactly when it is negative |
| `IssueScheduler.Scheduler.WakeIn` | src/cpu/o3/issue_queue.cc:437 | a scheduled instruction that does not wake speculatively changes nothing; otherwise the delayed wake-ups of its row are returned, its destinations become early-ready when some queue is woken now, and each queue's records and ready queues are either untouched or woken as `SpecWakeUp` states |
| `IssueScheduler.Scheduler.MarkEarly` | src/cpu/o3/issue_queue.cc:889-896 | exactly the non-fixed destinations become early-ready |
| `IssueScheduler.Scheduler.WakeNow` | src/cpu/o3/issue_queue.cc:313-345 | a canceled producer wakes nothing; any other leaves the queue's records and ready queues as waking, from the old state, the consumers listed for its destinations, and stays uncanceled |
| `IssueScheduler.Scheduler.WritebackQueues` | src/cpu/o3/issue_queue.cc:1020-1022 | the loop over the queues: from queues that are all unwoken, every queue ends with its consumers of the destinations woken and its lists for them emptied |
| `IssueScheduler.Scheduler.WritebackOne` | src/cpu/o3/issue_queue.cc:1020-1022 | queue t wakes the consumers of the destinations and empties their lists; the queues before it are already woken and the ones after it untouched |
| `IssueScheduler.Scheduler.FreePort` | src/cpu/o3/issue_queue.cc:1028-1030 | the port's busy count becomes 0 and no other port changes |
| `IssueScheduler.Scheduler.SetOrder` | src/cpu/o3/issue_queue.cc:825-838 | the class's dispatch list becomes the given order and no other class's list changes |
| `IssueScheduler.Scheduler.InsertFirstReady` | src/cpu/o3/issue_queue.cc:827-846 | the queue chosen is the first ready one of the order (the fewest instructions of the class for an integer op); it places the record as `insert` does and every other queue is kept |
| `IssueScheduler.Scheduler.InsertInto` | src/cpu/o3/issue_queue.cc:484-528 | the queue places the record as `insert` does, with the scoreboards deciding its ready bits, and every other queue is kept |
| `IssueScheduler.Scheduler.CommitOne` | src/cpu/o3/issue_queue.cc:541-547 | queue t's list drops its front run up to the commit point |
| `IssueScheduler.Scheduler.SquashOne` | src/cpu/o3/issue_queue.cc:550-590 | queue t is squashed as `IssueQue.DoSquash` states; the queues before it already are and the ones after it are untouched |
| `IssueScheduler.Scheduler.ApplyFound` | src/cpu/o3/issue_queue.cc:966-992 | the records and the early scoreboard the search computed are stored, so the state is the outcome of the cancellation from the load |
| `IssueScheduler.Scheduler.ClearOne` | src/cpu/o3/issue_queue.cc:995-1003 | queue t's stages keep their sizes, their canceled slots are emptied, and no slot holds a canceled instruction |
| `IssueScheduler.Scheduler.CancelLoad` | src/cpu/o3/issue_queue.cc:215-220 | the load writing the register is canceled with everything depending on it, and the issue stages only lose slots |
| `IssueScheduler.Scheduler.Score` | src/cpu/o3/issue_queue.cc:259-261 | passes exactly when every source is readable from the bypass network; a refusal pops the instruction as refused, and a pass changes nothing |
| `IssueScheduler.Scheduler.SendPassed` | src/cpu/o3/issue_queue.cc:262-268 | an instruction not issued before is issued and appended to the units' list, and nothing else is sent |
| `IssueScheduler.Scheduler.ReplayBusy` | src/cpu/o3/issue_queue.cc:251-257 | the instruction is pushed back to its ready queue, as a replayed pop, and nothing is issued |
| `IssueScheduler.Scheduler.AddIn` | src/cpu/o3/issue_queue.cc:230-239 | succeeds exactly when the instruction was not issued, and then marks it issued and nothing else |
| `IssueScheduler.Scheduler.BusyIn` | src/cpu/o3/issue_queue.cc:265-268 | the port stays busy for the latency less one cycle and no other port changes |
| `IssueScheduler.Scheduler.IssueFirst` | src/cpu/o3/issue_queue.cc:244-269 | the stage that reached the units is emptied, at most its size is issued, and the units receive the issued instructions in order |
| `IssueScheduler.Scheduler.TickAt` | src/cpu/o3/issue_queue.cc:737-739 | queue j forgets its insertions of the cycle and no other queue's insertion count changes |
| `IssueScheduler.Scheduler.CountersIn` | src/cpu/o3/issue_queue.cc:449-456 | the insertions are forgotten and every busy port counts down by one, stopping at zero; the records, ready queues, early scoreboard and dependency lists are left alone |
| `IssueScheduler.Scheduler.AdvanceIn` | src/cpu/o3/issue_queue.cc:459 | the issue stages move one step towards the units |
| `IssueQueue.Masks` | src/cpu/o3/issue_queue.cc:146-153 | one op-class mask per port, each the classes of that port |
| `IssueQueue.FuDescsClassified` | src/cpu/o3/issue_queue.cc:156-170 | every op class of the unit descriptions has a ready queue |
| `IssueQueue.SrcRequest` | src/cpu/o3/issue_queue.cc:400-406 | a source's request names no instruction but the requester and those the arbiter named |
| `IssueQueue.ArbitrateSrcs` | src/cpu/o3/issue_queue.cc:395-407 | the requests of a selected instruction's sources name no instruction but it and those the arbiter named |
| `IssueQueue.ArbitrateSel` | src/cpu/o3/issue_queue.cc:380-413 | the requests of a queue's selections name only instructions of that queue or those the arbiter named |
| `IssueQueue.ArbitrateSelFlags` | src/cpu/o3/issue_queue.cc:380-413 | the requests depend only on the records' fixed parts, not on their status flags |
| `IssueQueue.UsePortNamed` | src/cpu/o3/issue_queue.cc:936-950 | a port request names no instruction but the requester and those already named |
| `IssueQueue.WakeAllIdempotent` | src/cpu/o3/issue_queue.cc:329-331 | waking the same entries twice is waking them once |
| `IssueQueue.WakeAllUncanceled` | src/cpu/o3/issue_queue.cc:368 | a wake-up never sets a cancel flag |
| `IssueQueue.DropCount` | src/cpu/o3/issue_queue.cc:382-389 | the canceled tops popped are no more than the queue holds |
| `FuScheduler.StickySameFu` | src/cpu/o3/issue_queue.cc:146-153 | ports A, B, B are refused although every pair is identical or disjoint, because the same-mask flag is sticky |
| `GcptList.RenderReadBack` | util/zebra/gen_gcpt_list.py:51-55 | a line splits at its blanks into `part<index>`, the path, `20` and the count, and both numbers read back |
| `GcptList.SortByPartSpec` | util/zebra/gen_gcpt_list.py:38 | the sort orders by part number, keeps every entry, and keeps entries with the same part number in their discovery order (stability) |
| `Cdp.AlignHiAsWritten` | src/mem/cache/prefetch/cdp.cc:273-278 | as written, below 5% accuracy bits 10:0 must be clear and otherwise bits 1:0: the branch for 1% is dead |
| `XsStream.XsStreamPrefetcher.StreamSendsSound` | src/mem/cache/prefetch/xs_stream.cc:53-64 | every request of the three sends is a stream request and a candidate of the send of its level (level 3 only when enabled) |
| `XsStream.XsStreamPrefetcher.StreamSendsComplete` | src/mem/cache/prefetch/xs_stream.cc:53-64 | every L1 candidate outside the filter, and every L2 candidate outside the filter and the L1 send, is requested at its level |
| `XsStream.SendFilteredSpec` | src/mem/cache/prefetch/xs_stream.cc:112-133 | only candidates are sent, and every candidate the filter did not hold beforehand is |
| `ClockAnalysis.FileSeparatorIsBlank` | util/ClockAnalysis.py:97 | `split()` treats the file separator as a blank: it has no word of its own and does not join the word after it |
| `IssueQueue.IssueQue.Full` | src/cpu/o3/issue_queue.cc:472-481 | the definition of `full()`: entries taken reach the size, or the replay queue is over its bound; `IssueQue.Ready` and `Scheduler.FullFor` state what follows from it |
| `IssueQueue.CheckRfPortBusy` | src/cpu/o3/issue_queue.cc:915-922 | the definition of `checkRfPortBusy`; `IssueQueue.UseRegfilePort` states that a request takes the port exactly when it holds |
| `IssueQueue.CorrectedOpLat` | src/cpu/o3/issue_queue.cc:1049-1055 | the definition of `getCorrectedOpLat`: two cycles more for a load; the wake-up delay lemmas are stated over it |
| `IssueQueue.SpecWakes` | src/cpu/o3/issue_queue.cc:870-872 | the definition of the early return of `specWakeUpDependents`; `Scheduler.SpecWakeUp` and `Scheduler.WakeIn` state that nothing changes when it fails |
| `IssueScheduler.HasReadyInstsAsWritten` | src/cpu/o3/issue_queue.cc:1057-1066 | the definition of `hasReadyInsts` as written, through the inverted `idle()`; `HasReadyInstsInverted` exhibits the wrong answer |
| `Cdp.VpnTable.Search` | src/mem/cache/prefetch/cdp.hh:271-285 | the definition of `search`: the hot bit of the region's sub-entry, false when absent; `Cdp.PointersMembers` states the scan over it |
| `Cdp.SetFilter` | src/mem/cache/prefetch/cdp.hh:360-363 | the definition of `setFilter`, a saturating step up; `Cdp.SetUnSetInverse` states its properties |
| `Cdp.UnSetFilter` | src/mem/cache/prefetch/cdp.hh:365-368 | the definition of `unSetFilter`, a saturating step down; `Cdp.SetUnSetInverse` states its properties |
| `Cdp.CdpPrefetcher.NeedFilter` | src/mem/cache/prefetch/cdp.cc:401-415 | the definition of `needFilter`: the address's counter is saturated, false without an entry |
| `Cdp.IsPointer` | src/mem/cache/prefetch/cdp.cc:280-290 | the definition of the test that takes a scanned word for a pointer: canonical, non-zero vpn0, aligned, in a hot region; `Cdp.PointersMembers` states the scan over it |
| `Cdp.AlignHi` | src/mem/cache/prefetch/cdp.cc:273-278 | the corrected alignment test, 1% first; `Cdp.AlignHiMonotone` states its properties |
| `Cdp.ThrottleCheck` | src/mem/cache/prefetch/cdp.cc:253-268 | the definition of the throttling decision: the new flag and whether the scan goes on |
| `Cdp.NotifyOutcome` | src/mem/cache/prefetch/cdp.cc:202-329 | the definition of the outcome of `notifyWithData`; `Cdp.NotifyOutcomeSpec` states its properties |
| `XsStream.AdaptDepth` | src/mem/cache/prefetch/xs_stream.cc:39-51 | the definition of the depth adaptation; `XsStream.AdaptDepthCases` states its cases |
| `XsStream.Target` | src/mem/cache/prefetch/xs_stream.cc:54-62 | the definition of a send's start address; `XsStream.TargetOffset` and `XsStream.TargetsMirror` state its properties |
| `XsStream.XsStreamPrefetcher.Lookup` | src/mem/cache/prefetch/xs_stream.cc:76-78 | the definition of `findEntry` on the region table |
| `XsStream.XsStreamPrefetcher.NeighbourActive` | src/mem/cache/prefetch/xs_stream.cc:77-81 | the definition of the neighbours' activity test `StreamLookup` reports |
| `Nemu.NemuCpu.TotalInsts` | src/cpu/simple/nemu.cc:130-133 | the instruction counter |
| `Nemu.NemuCpu.TotalOps` | src/cpu/simple/nemu.cc:136-139 | the instruction counter, reported as the operation count as well |
| `ClockAnalysis.FixPc` | util/ClockAnalysis.py:53-57 | the definition of the reader's pc fix; `ClockAnalysis.FixPcRestores` and `ClockAnalysis.FixPcRange` state its properties |
| `ClockAnalysis.InWindow` | util/ClockAnalysis.py:32-34 | the definition of the query's window; `ClockAnalysis.WindowInCycles` states it in cycles |
| `ClockAnalysis.FirstWord` | util/ClockAnalysis.py:97 | the definition of `split()[0]`; `ClockAnalysis.FirstWordIsWord` states its properties |
| `Vipt.ExtractTag` | src/mem/cache/tags/indexing_policies/vipt_set_associative.hh:126-133 | the definition of `extractTag`; `Vipt.ComposeTag` states its fields |
| `Vipt.RegenerateAddr` | src/mem/cache/tags/indexing_policies/vipt_set_associative.hh:117-124 | the definition of `regenerateAddr`; `Vipt.RegenerateInvertsExtract` states the round trip |
| `Vipt.AliasAddr` | src/mem/cache/tags/vipt_set_assoc.cc:67-68 | the definition of the alias probe address; `Vipt.AliasAddrFields` and `Vipt.AliasKeepsOtherBits` state its fields |
| `Gcpt.Accepts` | src/dev/riscv/gcpt.cc:12-13 | the definition of the access guard; `Gcpt.LastByteUnreachable` states its consequence |

## Left out

- Statistics, `DPRINTF`, tracing output and `archdb->execmd`: none of them changes the modelled state.
- The floating-point heuristics are inputs:
  - in CDP: `isLowConfidence`, the true accuracy and coverage, MPKI, the bus ratio, the accuracy gates and the decay arithmetic of a period reset;
  - in the stream prefetcher: the late-ratio test.
- The decisions of foreign components are parameters:
  - the replacement victim of `AssociativeSet` and the cache tags;
  - the region tag, offset and hash of the stream prefetcher, and its tuning constants, which live in a header that is not part of this model.
- `IssueScheduler.Scheduler.Insert`: the outcome of `std::sort`, and of the nondeterministic `std::random_shuffle`, is a parameter. The parameter must reorder the class's dispatch list and, for an integer op, be sorted by class count; the sort itself is not modelled.
- Event scheduling and time are returned as data. `SpecWakeupCompletion` events become the list of delayed wake-ups `SpecWakeUp` returns. `TimeBuffer` mechanics are the explicit stage advance of `TickQueue`.
- `MemDepUnit` is not part of this model. Its insertion and its dependence-solved answer are flags of the instruction record.
- `DynInst`, `PhysRegId` and `FUDesc` internals are not modelled: only the fields the issue stage reads or writes are.
- `updateInstPos` calls from the issue queue into the commit trace are not modelled.
- `checkOldVdElim` and the vector old-destination elimination it guards are not modelled.
- I/O is not modelled:
  - NEMU's `dlopen`/`dlsym` and the port packet traffic;
  - GCPT's packet responses;
  - the analyser's sqlite reads, numpy statistics, spike-dasm subprocess and printing;
  - the list generator's directory walk and file writes, which are inputs and outputs.
- `IssueScheduler.Scheduler.IssueToFu`: an instruction reaching the units with a negative issue port is reported as a fault (`ok` false). The source would index `portBusy` with it.
- `IssueScheduler.Scheduler.IssueAndSelect`: requires the port arbiter to be empty on entry. The source leaves it empty at the end of every select cycle, so this holds from construction on.
- `IssueScheduler.Scheduler.IssueAndSelect`: does not state which instructions each queue selects, nor that `failed` is the arbiter's list of losers after selection. `IssueScheduler.Scheduler.SelectOne` and `IssueQueue.IssueQue.SelectInst` state the selection per queue, and `IssueScheduler.Scheduler.FlagFailed` states the marking of the arbiter's losers.
- `IssueScheduler.Scheduler.SelectPhase`: the same; it states that the losers are marked and the ports released, not which instructions lost.
- `IssueScheduler.Scheduler.constructor`: a queue without unit descriptions, which the source rejects with `panic`, is a precondition.
- `Vipt.ViptSetAssoc.constructor`: requires the page offset to cover the block offset and to lie within the set and block bits. The source only asserts an even page size; the alias-bit computation for other geometries lives in a file that is not part of this model.
- `FuScheduler.WellFormedQueue`: a port's mask is the set of unit kinds it lists, each kind standing for the op classes it executes; the unit definitions are not part of this model.
- `IssueScheduler.Scheduler.LoadCancel`: the depth-first search runs on copies of every queue's records and dependency lists, which are then written back. The order of the in-place updates is not modelled, but their outcome is the same.
- `IssueScheduler.Scheduler.Tick`: states only that every queue's insertions of the cycle are forgotten and its invariant kept. The port countdown and the stage advance are stated per queue by `TickQueue`.
- `IssueScheduler.Scheduler.GetIQInsts`: the 32-bit result is the sum modulo 2^32, as the source's `uint32_t` accumulator gives.
- `IssueQueue.IssueQue.constructor`: a port configuration the source rejects with `panic` is a precondition, not an error result.

## Findings

| source | as written | input that shows it | evidently intended | confidence | as-written member | corrected member |
|---|---|---|---|---|---|---|
| src/cpu/o3/issue_queue.cc:1058-1067 | `hasReadyInsts` returns true when some queue is not `idle()`. `idle()` (lines 291-302) is true when a queue has work pending, so the answer is inverted. | one queue whose only ready queue holds one instruction: reported as having no ready instruction | true exactly when some queue has an instruction in a ready queue or its replay queue | not executed | `IssueScheduler.HasReadyInstsInverted` | `IssueScheduler.Scheduler.HasReadyInsts` |
| src/mem/cache/prefetch/cdp.hh:232-233 | the VPN table accepts any even sub-entry count below 512 and indexes sub-entries with ceil(log2 n) bits | 6 sub-entries and region (vpn2, vpn1) = (0, 7): index 7 of a 6-entry array | the count must be a power of two, so every index selects an existing sub-entry | not executed | `Cdp.SixSubEntriesOverflow` | `Cdp.SubIndexInRange` |
| src/mem/cache/prefetch/cdp.cc:273-278 | the alignment test checks accuracy below 0.05 before accuracy below 0.01, so the page-alignment branch is never reached; `Cdp.NotifyOutcome` and `Cdp.CdpPrefetcher.NotifyWithData` keep this order, as the source runs it | accuracy 0.005: only bits 10:0 are required clear | below 1% accuracy a pointer must be page aligned (bits 11:0 clear), and lower accuracy never relaxes the test | not executed | `Cdp.PageAlignmentUnreachable` | `Cdp.AlignHiMonotone` |
| src/mem/cache/prefetch/cdp.cc:81-82 | the constructor checks only that `filterRegionBlks` is even | `filterRegionBlks` = 0 passes, leaving a filter entry with no slot and a tag computed by division by zero | the region size must be even and positive, so every address has a slot | not executed | `Cdp.ZeroRegionAdmitted` | `Cdp.RegionSlotExists` |
