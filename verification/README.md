# Kremlin: the runtime's invariants, and the algorithms around it

Kremlin measures how parallel a serial program is. Its runtime is a hierarchical critical-path analyser: for every
register, memory word and control dependence it keeps one timestamp per nesting level, and for every region (function,
loop, loop body) its work and its critical path. The hard part is keeping those vectors right cheaply, and that is
what this project models in Dafny and proves.

**The profiler** (`Critical`, `Profile*.dfy`, `Profiler`, `ProfilerRun`). `Profile` gives the meaning of each call an
instrumented program makes, as a function from state to state: region entry and exit, landing pads, stamps, phis,
loads, stores, control dependences, arguments, results. `Profilers.Profiler` is the object with the loops the runtime
has, each method proved against those functions. `ProfileMeaning` says of each call, without those functions, which
value every register, memory cell, control dependence and critical path has afterwards at each level, and what stays.
`ProfileTree.RecordsTally` looks at the records of a run alone: what each says of its children is what the children's
own records say, and self work adds up to the work of the outermost regions. `ProfilerRun.Replay` runs it over Skadu's
versioned, compressed and collected shadow memory: the records are those of the state machine over an eager memory.
The main theorem, `ProfileRun.RunBounds`, is about every run. Three of the runtime's debug-only checks hold of every
region record: critical path within work, children's critical paths within their work, that within the work; and work
divided by self-parallelism, the figure the tool reports, is the exact quotient rounded down. Two relate adjacent
levels: self-parallelism of at least one above the deepest instrumented level, and no child with a longer critical
path than its parent's (without which the figure behind the doall flag wraps around). They are false in general,
because a value passed between functions below the deepest instrumented level is copied without a level that is still
instrumented. `ProfileDeepRuns` gives a legal run from the start that fails each. `ProfileDeep.PaceExact` and
`OrderExact` say exactly which calls keep them: one that copies nothing, or whose copy is in pace (the copied time one
level up exceeds the time it leaves out by no more than that level's slack, a figure fixed by the active regions),
respectively in order (it is no less than the time left out). Both can be read off the state before the call; a call
that violates one has, given room on the clock, a continuation whose record fails. `RunBounds` promises each bound on
every run whose copies keep it. A fourth check, that the critical path is positive when the work is, is false too:
`ProfileLive.IdleRunFails` is a function that only lets time pass, and `ProfileLive.PathsFound` tells the runs on
which it holds, in terms of the calls alone (if and only if). The run is kept in balance by accounts
(`ProfileBounds.Ledger`) of what the instrumented program has paid with `increaseTime` since the last region boundary.

**Shadow memory** (`ShadowSpec`, `LevelTable`, `Delta`, `Lzo`, `ClockBuffer`, `Pages`, `PageStore`, `Skadu`,
`SkaduRun`, `CacheLines`, `CacheIndex`, `CacheRuns`, `CacheStale`, `SkaduCache`, `SkaduCacheRun`, `Stv`). The
specification is eager: entering level `l` zeroes all of memory at level `l`. Skadu instead bumps one version number,
shares versions among the words of a page, cleans a level of a page on first write, drops dead levels in a garbage
collector, and packs pages that have not been used lately (deltas, then LZO1X). `SkaduRun.Replay` proves that for
every sequence of entries, exits, loads, stores and collections the answers are the eager ones. `SkaduCacheRun.Replay`
puts the write-back cache in front. The cache writes a line back up to the line's recorded depth, which may cover
levels that have been left and entered again, and brings dead times back: `CacheStale.StaleAnswer` is a run, for any
two cells that share a line, on which a load answers `[9, 8]` where the eager memory has `[9, 0]`. `Replay` gives the
cache's answers on all runs, such runs included. A run is sound (`CacheRuns.RunSound`) when no access evicts a line
uncleanly, except the line of a cell it overwrites at once; cleanliness is a comparison of two prefixes of the line
(`CacheLines.Clean`). On a sound run the answers are the eager ones, an access keeps the cache in agreement with the
eager memory if and only if it is sound (`StepExact`), and a run that is not sound has a beginning after which one
more load is answered wrongly (`SkaduCacheRun.UnsoundFromFresh`). `CacheIndex` gives the line of a cell bit by bit;
with a power of two of lines no two of that many aligned cells share one, and every run that stays within them is
sound. `SingleTag` proves that one version tag per word marks the same levels as a full version vector, and that both
answer as the eager memory does.

**The region profile tree** (`RegionTree*.dfy`): opening and closing regions over a mutable tree whose current node
jumps to an ancestor when recursion is folded. Of the tree of a run, `RegionTreeProgram.Replay` says that children of
a node differ in their keys, that walking the events over it tells for each record the node and the page whose figures
it is part of, and that no node is there without having been entered.

**Compiler-side algorithms**: link-eval with path compression (`LinkEval`), post-dominance frontiers
(`PostDominance`), rebalancing of associative chains (`AssocChain`), dependence-respecting placement (`Placement`).
**Common code**: the chained hash map, its contents as values (`HashMap`) and its nodes, links and rehashing in place
(`HashTable`).

Each component ends in a `Replay` (or `RoundTrip`, `Frontiers`, `BreakChain`, `PlaceInsts`) that creates the object,
runs the program's own loops over an arbitrary input, and states the answer in terms of the specification alone.

Assumptions the profiler's theorem makes of the instrumented program, as predicates a caller can check before the call
(`Profile.Legal`, `ProfileBounds.Paid`): what the runtime asserts; a stamp of cost `c` is made after at least `c` has
passed since the last region boundary or stamp that used it; a region pops only control dependences it pushed itself;
an argument that is not a constant is taken off while the critical path of the function is zero, which is so before
the function stamps anything (runtime/src/kremlin.cpp:258-280) and always below the instrumented levels; the first
region is a function; the clock does not overflow.

Where the code and its comments disagree, the code is followed: the assertion at runtime/src/CRegion.cpp:123 that the
child is not a sink contradicts the branch above it for sinks, so the invariant kept is the one about the *current*
node (runtime/src/CRegion.h:66).

Run `dafny verify dfyconfig.toml` to check everything.

## Model

| member | source | states |
|---|---|---|
| ProfilerRun.Replay | runtime/src/Handlers.cpp:130-1170 | From a fresh profiler over a fresh Skadu shadow memory, any legal, paid run of calls produces exactly the records of the state machine over eager memory, whatever the compression setting, buffer size, first version and moments of collection; each has cp <= work and childrenCP <= childrenWork <= work; those above the deepest level have self-parallelism of at least one if every copy of the run was in pace; and childMaxCP <= cp with an exact doall flag if every copy was in order; work divided by self-parallelism is the exact quotient rounded down; and what each record says of its children is what their records say |
| ProfileTree.RecordsTally | runtime/src/Handlers.cpp:524-533 | In the records of a run from the start, taken alone, each record's childrenWork, childrenCP, childMaxCP and childCount are the sum, sum, maximum and number over the records one level deeper since the last at its own level or above; once all regions are left, self work adds up to the work of the outermost regions |
| ProfileMeaning.PhiIs | runtime/src/Handlers.cpp:912-957 | After a phi the destination's time at each instrumented level is the greatest of those of the incoming value and the controls; other levels, registers and all critical paths stay |
| ProfileMeaning.PhiCondIs | runtime/src/Handlers.cpp:959-974 | A phi's condition gives the greatest of what the phi had and four more controls, without critical paths |
| ProfileMeaning.PhiAddCondIs | runtime/src/Handlers.cpp:976-984 | One condition more gives the greater of the two times, and critical paths take it in |
| ProfileMeaning.StampIs | runtime/src/Handlers.cpp:718-792 | A stamp of up to five operands has, at each instrumented level, the greatest of the control dependence and each operand's time plus its cost; critical paths take that in and nothing else changes |
| ProfileMeaning.LongStampIs | runtime/src/Handlers.cpp:794-838 | So has one of six or seven; where the sixth or seventh is the destination itself, it is read with what the first five have given |
| ProfileMeaning.LoadIs | runtime/src/Handlers.cpp:850-872 | A load has the greatest of the control dependence, the cell and the address registers, plus four |
| ProfileMeaning.StoreIs | runtime/src/Handlers.cpp:361-395 | A store gives its cell, at the instrumented levels, the greater of control dependence and register plus one; no other cell or level changes |
| ProfileMeaning.EnterIs | runtime/src/Handlers.cpp:398-440 | An entry zeroes its level in memory, in the dependence in force and in the current registers, starts an empty record, and changes nothing else |
| ProfileMeaning.ExitIs | runtime/src/Handlers.cpp:485-572 | An exit takes the record and a function's table off and adds to the parent's four totals; nothing else changes |
| ProfileMeaning.RecordIs | runtime/src/Handlers.cpp:485-566 | A record has its region's level, id, kind, call site, the time since entry, critical path and totals, and a doall flag exactly for loops whose critical path exceeds their longest child's by less than five, in unsigned arithmetic |
| ProfileMeaning.PushIs | runtime/src/Handlers.cpp:986-1015 | A push puts the condition's instrumented times on the next row and leaves all other rows and levels |
| ProfileMeaning.PushThenPop | runtime/src/Handlers.cpp:986-1025 | What was in force before a push is in force again after the pop |
| ProfileMeaning.ArgumentIs | runtime/src/Handlers.cpp:1056-1077 | An argument gives the callee's register the times of the caller's queued register at all instrumented levels but one, and changes nothing else |
| ProfileMeaning.QueuedInOrder | runtime/src/KremlinProfiler.hpp:431-444 | Arguments are taken off in the order they were queued in |
| ProfileMeaning.ResultIs | runtime/src/Handlers.cpp:1128-1150 | A result gives the caller's return register the times of the callee's register at all instrumented levels but one |
| ProfileMeaning.ConstResultIs | runtime/src/Handlers.cpp:1152-1170 | A constant result gives it the dependence in force at every level of the caller's table |
| ProfileMeaning.TableIs | runtime/src/Handlers.cpp:1092-1109 | A function's table has the registers asked for, all zero, at its own level and those nested in it |
| ProfileMeaning.CostIs | runtime/src/Handlers.cpp:113-126 | The price of a stamp of up to five operands is the greatest operand cost, of a load four, of a store one, of all other calls nothing |
| ProfileRun.RunBounds | runtime/src/Handlers.cpp:507-553 | On every run every finished record has cp <= work and childrenCP <= childrenWork <= work, and reports work divided by self-parallelism exactly; above the deepest instrumented level self-parallelism of at least one, if every argument or result copied below the instrumented levels was in pace; and childMaxCP <= cp with an exact doall flag, if every such copy was in order |
| ProfileRun.CallKeeps | runtime/src/Handlers.cpp:130-1170 | Every legal, paid call keeps the invariant: at each level accessible times are at most the time since the region started and at most its critical path; while all copies were in order they do not increase with depth; while all were in pace a level exceeds the next by at most that level's slack. Only a copy below the instrumented levels that is not in order, or not in pace, ends the respective account |
| ProfileRun.EmittedOk | runtime/src/Handlers.cpp:485-572 | Whatever a call emits in an invariant state meets the bounds on work and critical path, and the bounds between levels for which the account is still kept |
| ProfileRun.UnwindIsExits | runtime/src/Handlers.cpp:574-675 | A landing pad equals repeated region exits down to the deepest region with the id: same state, same records, same accounts |
| ProfileRun.UnwoundOk | runtime/src/Handlers.cpp:591-674 | So does every record of an unwind, although intermediate regions are closed from the runtime's side |
| ProfileRun.LongStamp | runtime/src/Handlers.cpp:794-838 | A stamp of six or seven operands, made in two steps through the destination register, is one simultaneous stamp: of all operands when the sixth and seventh are not the destination itself, and with such an operand read after the first step when they are |
| ProfileRun.StampsJoined | runtime/src/Handlers.cpp:806-813 | Two stamps in a row, the second taking in the first, are one stamp over the joined operands |
| ProfileRun.OtherRegisters | runtime/src/Handlers.cpp:201 | A stamp leaves all other registers as they were |
| ProfileBounds.InitiallyOk | runtime/src/KremlinProfiler.hpp:74-92 | The fresh profiler satisfies the invariant |
| ProfileBounds.UpdateKeeps | runtime/src/Handlers.cpp:130-207 | A stamp that has been paid for keeps the invariant whatever registers, control dependence and memory it takes in, and whether or not it extends critical paths |
| ProfileBounds.TwoStepsKeep | runtime/src/Handlers.cpp:794-838 | A stamp in two steps keeps the invariant for the price of the larger operand cost, or of both when the second step reads what the first wrote from another operand |
| ProfileBounds.StoreKeeps | runtime/src/Handlers.cpp:361-395 | A paid store keeps the invariant: what it writes can be read later at any level still active |
| ProfileRegions.EnterKeeps | runtime/src/Handlers.cpp:398-440 | Entering a region keeps the invariant although stale times remain in registers, dependences and memory of other frames and levels |
| ProfileRegions.CloseKeeps | runtime/src/Handlers.cpp:485-572 | Leaving a region keeps the invariant with the region's work and critical path credited to its parent |
| ProfileRegions.UnwindKeeps | runtime/src/Handlers.cpp:591-674 | Unwinding any number of regions keeps the invariant |
| ProfileRegions.ExitedOk | runtime/src/Handlers.cpp:485-553 | The record of the innermost region has cp <= work and childrenCP <= childrenWork <= work without wrap-around; self-parallelism of at least one above the deepest level while copies were in pace; and cp - childMaxCP does not wrap while they were in order; work divided by self-parallelism is the exact quotient rounded down, and the reported figure the lesser of it and the work |
| ProfileRegions.DividedWork | runtime/src/Handlers.cpp:555-559 | When the critical path is no longer than the self path, work divided by self-parallelism needs no clamp |
| ProfileRegions.QuotientIs | runtime/src/Handlers.cpp:535-559 | For any figures the quotient q of work and self-parallelism is the one with q * self path <= work * cp < (q + 1) * self path |
| ProfileLinks.PushKeeps | runtime/src/Handlers.cpp:986-1015 | Pushing a control dependence keeps the invariant |
| ProfileLinks.PopKeeps | runtime/src/Handlers.cpp:1017-1025 | Popping a dependence the region pushed keeps the invariant |
| ProfileLinks.DequeueKeeps | runtime/src/Handlers.cpp:1056-1077 | Taking an argument off, which copies all instrumented levels but one, keeps the invariant; the account between levels ends only if the copy leaves out an instrumented level and is not in pace, or not in order |
| ProfileLinks.ReturnKeeps | runtime/src/Handlers.cpp:1128-1150 | Passing a result back keeps the invariant under exactly the same conditions |
| ProfileLinks.ReturnConstKeeps | runtime/src/Handlers.cpp:1152-1170 | A constant result copies the current dependence over the caller's full row and keeps the invariant |
| ProfileLinks.PrepareKeeps | runtime/src/Handlers.cpp:1092-1109 | A fresh register table keeps the invariant |
| ProfileDeep.PaceExact | runtime/src/Handlers.cpp:1056-1150 | In a run kept in pace so far, and with room on the clock, a call is in pace if and only if no continuation without another copy has a record of self-parallelism below one above the deepest instrumented level |
| ProfileDeep.OrderExact | runtime/src/Handlers.cpp:1056-1150 | Likewise a call is in order if and only if no such continuation has a record with childMaxCP beyond cp |
| ProfileDeep.CopyExposed | runtime/src/Handlers.cpp:1056-1150 | After any copy below the instrumented levels a legal, paid run of a stamp and exits ends in a record, one level above the deepest, that shows the copied time and the time left out |
| ProfileDeep.DrivenReports | runtime/src/Handlers.cpp:173-206 | A register stamped by the last amount of work, and regions left, give a record whose critical path and child's critical path are the register's times plus that amount, or what they were |
| ProfileDeepRuns.ArgumentRunFails | runtime/src/Handlers.cpp:1066-1075 | A concrete legal and paid run from the initial state, with an argument passed below the instrumented levels, ends in an instrumented record of self-parallelism below one |
| ProfileDeepRuns.ResultRunFails | runtime/src/Handlers.cpp:1128-1150 | A concrete legal and paid run, with a result passed back from below, ends in a record whose childMaxCP exceeds cp, so that the difference behind the doall flag wraps to seven below two to the 64 |
| ProfileLive.PathsFound | runtime/src/Handlers.cpp:539-546 | On every run all records of instrumented levels have a positive critical path when their work is positive, if and only if each such region is left only after a call of positive cost within it or at the moment it was entered |
| ProfileLive.CallLive | runtime/src/Handlers.cpp:203-205 | At every point of a run an instrumented region's critical path is positive exactly when a call of positive cost was made since its entry, at any depth inside it |
| ProfileLive.IdleFails | runtime/src/Handlers.cpp:539-546 | From any state, letting time pass in an instrumented region that no such call has been made in, and leaving it, is a legal run that fails the check |
| ProfileLive.IdleRunFails | runtime/src/Handlers.cpp:539-546 | The least such run: a function that does nothing but work |
| Critical.StampFits | runtime/src/Handlers.cpp:173-206 | A stamp over affordable operands is bounded by elapsed time and critical path plus its cost, and adjacent levels stay related as those of its operands were: each within its slack of the next, and none below it |
| Critical.StampRegions | runtime/src/Handlers.cpp:203-205 | Raising critical paths to a paid stamp keeps all active regions' bounds, those between adjacent levels where the stamp keeps them too |
| Critical.ShutRegions | runtime/src/Handlers.cpp:525-533 | Crediting a child to its parent keeps all active regions' bounds, including childrenWork <= work |
| Critical.OpenRegions | runtime/src/ProgramRegion.hpp:35-52 | A new region record keeps all active regions' bounds |
| Critical.LatestBounds | runtime/src/Handlers.cpp:113-126 | The latest of affordable operands is bounded at each level, and related between adjacent levels as the operands are, although different operands may be latest at each |
| Profile.Deepest | runtime/src/Handlers.cpp:581-589 | The innermost active region with the id, or none |
| Profilers.Profiler.constructor | runtime/src/KremlinProfiler.hpp:74-92 | A fresh profiler is in the initial state |
| Profilers.Profiler.IncreaseTime | runtime/src/KremlinProfiler.hpp:390 | Adds to the clock |
| Profilers.Profiler.TimestampUpdater | runtime/src/Handlers.cpp:130-207 | The level-by-level loop, which overwrites the register it may be reading, equals one simultaneous stamp of all levels |
| Profilers.Profiler.TimestampUpdaterStore | runtime/src/Handlers.cpp:361-395 | The level-by-level loop through the scratch array equals one simultaneous store |
| Profilers.MaxTime | runtime/src/Handlers.cpp:177-199 | The chain of maxima is the latest operand: dependence, memory, registers |
| Profilers.Profiler.UpdateLevel | runtime/src/KremlinProfiler.hpp:392-417 | The count of instrumented levels and the instrument flag follow the current level |
| Profilers.Profiler.HandleRegionEntry | runtime/src/Handlers.cpp:398-440 | Equals region entry of the specification |
| Profilers.Profiler.HandleRegionExit | runtime/src/Handlers.cpp:485-572 | Equals region exit of the specification, with its record |
| Profilers.Profiler.HandleLandingPad | runtime/src/Handlers.cpp:574-675 | The search and the loop of exits equal the unwind of the specification, with its records |
| Profilers.Profiler.HandlePushCDep | runtime/src/Handlers.cpp:986-1015 | Copies the instrumented levels of the condition onto the dependence table |
| Profilers.Profiler.HandleEnqueueArgument | runtime/src/KremlinProfiler.hpp:431-444 | The two-index queue holds the arguments in order |
| Profilers.Profiler.HandleDequeueArgument | runtime/src/Handlers.cpp:1056-1077 | Equals taking an argument off: the caller's row without the callee's own level |
| Profilers.Profiler.HandlePrepRTable | runtime/src/Handlers.cpp:1092-1109 | Gives the waiting frame a zeroed table as wide as its level and the nested levels need |
| Profilers.Profiler.HandleReturn | runtime/src/Handlers.cpp:1128-1150 | Copies a result into the caller's return register without the callee's own level |
| Profilers.Profiler.HandleReturnConst | runtime/src/Handlers.cpp:1152-1170 | Copies the current dependence into the caller's return register over the table's whole width |
| ProfilerRun.Dispatch | runtime/src/kremlin.cpp:164-360 | Each call has the specified effect and emits the specified records, and the shadow memory holds afterwards what the profiler takes it to hold |
| ShadowSpec.SameEntry | runtime/src/TimeTable.cpp:15-23 | Two addresses share a cell of a page exactly when they agree above their low three bits |
| ShadowSpec.PageSplit | runtime/src/TimeTable.cpp:15-23 | 512 consecutive cells make a page, and a page's segment and index are the upper digits of the cell number |
| ShadowSpec.Zeroed | runtime/src/KremlinProfiler.hpp:97-99 | The specification of entering a level: all of memory is zero there and unchanged elsewhere |
| ShadowSpec.Written | runtime/src/MShadowNullCache.cpp:20-29 | The specification of a store: the cell's first levels are replaced, its other levels and all other cells are unchanged |
| ShadowSpec.Entered | runtime/src/KremlinProfiler.hpp:97-99 | Issuing versions keeps active versions ascending, positive in age order and below the counter |
| LevelTables.LevelTable.GetTime | runtime/src/LevelTable.cpp:31-45 | A level of a page reads as zero when its table is missing or its version is older than the level's |
| LevelTables.LevelTable.SetTime | runtime/src/LevelTable.cpp:47-83 | Clean-on-first-write: an outdated level's table is zeroed before the write and its version renewed, other levels are unchanged |
| LevelTables.LevelTable.FindLowestInvalidIndex | runtime/src/LevelTable.cpp:86-98 | Finds the first level that is missing or out of date |
| LevelTables.LevelTable.CollectGarbageWithinBounds | runtime/src/LevelTable.cpp:111-131 | Keeps exactly the live levels below the bound |
| LevelTables.LevelTable.CollectGarbageUnbounded | runtime/src/LevelTable.cpp:133-138 | Keeps exactly the live levels |
| LevelTables.LevelTable.Compress | runtime/src/LevelTable.cpp:140-204 | Packs all tables of the page, from the deepest up so that each delta is against an unpacked table, without changing what the page holds |
| LevelTables.LevelTable.Decompress | runtime/src/LevelTable.cpp:206-276 | Unpacks from the outermost down; the page holds exactly what it held |
| Delta.RestoredDiffed | runtime/src/LevelTable.cpp:278-293 | Undoing the differences gives every array back under 64-bit wrap-around |
| Delta.MinusMinus | runtime/src/LevelTable.cpp:164-173 | Subtracting the level above twice gives a table back under wrap-around |
| Delta.MakeDiff | runtime/src/LevelTable.cpp:278-285 | The descending loop in place computes the differences of the original array |
| Delta.RestoreDiff | runtime/src/LevelTable.cpp:287-293 | The ascending loop in place computes the running sums |
| Delta.BytesRoundTrip | runtime/src/compression.cpp:22-60 | A table's words survive being laid out as bytes |
| Delta.ByteAt | runtime/src/compression.cpp:22-60 | The lowest byte of a word comes first |
| Delta.Unpack | runtime/src/compression.cpp:45-60 | Decompressing packed bytes gives the table back |
| ClockBuffer.CBuffer.GetVictim | runtime/src/compression.cpp:136-153 | Terminates; picks the first entry in clock order whose bit is clear, or the hand itself when all are set; leaves the hand one past it |
| ClockBuffer.VictimAt | runtime/src/compression.cpp:136-153 | A victim whose bit is set is the one under the hand, and then all bits are set |
| ClockBuffer.CBuffer.AddToBuffer | runtime/src/compression.cpp:155-167 | The page joins the active set in address order with its bit set; no other entry changes and the hand stays on its own |
| ClockBuffer.CBuffer.EvictFromBuffer | runtime/src/compression.cpp:169-179 | The clock's victim, and no other, leaves the active set compressed, with its contents; bits the hand has passed are clear, and the hand is on the entry behind it |
| ClockBuffer.CBuffer.AddTable | runtime/src/compression.cpp:189-203 | A page is packed only if the set is full, and then the clock's victim; exactly the active pages are uncompressed |
| ClockBuffer.CBuffer.Decompress | runtime/src/compression.cpp:181-187 | A packed page becomes active, unchanged; at most one other is packed for it |
| ClockBuffer.CBuffer.Touch | runtime/src/compression.cpp:205-218 | Sets the page's bit and nothing else; never misses |
| Pages.CollectedReads | runtime/src/LevelTable.cpp:111-138 | Dropping dead levels of any pages changes no readable time |
| Pages.StoredReads | runtime/src/LevelTable.cpp:47-83 | A write through a page changes the written cell's levels only, although the whole page shares one version per level |
| Pages.EnterInStep | runtime/src/KremlinProfiler.hpp:97-99 | Issuing one version has the effect of zeroing a level of the whole memory |
| Pages.ExitInStep | runtime/src/KremlinProfiler.hpp:400-417 | Leaving a level changes nothing that can be read |
| PageStore.Store.GetTable | runtime/src/MShadowSkadu.cpp:103-129 | The page is there and uncompressed, created or unpacked if needed; nothing readable has changed |
| PageStore.Store.SetEntry | runtime/src/MShadowSkadu.cpp:168-189 | Writes the first levels of one entry of a page |
| PageStore.Store.CollectPage | runtime/src/MShadowSkadu.cpp:94-98 | Collects one page in place |
| Skadu.MShadowSkadu.RunGarbageCollector | runtime/src/MShadowSkadu.cpp:87-101 | Sweeping all pages, packed or not, changes no readable time |
| Skadu.MShadowSkadu.Get | runtime/src/MShadowNullCache.cpp:8-18 | Answers with what each level holds, and changes nothing readable |
| Skadu.MShadowSkadu.Set | runtime/src/MShadowNullCache.cpp:20-29 | Changes the written cell's levels and no other readable time |
| SkaduRun.Replay | runtime/src/MShadowNullCache.cpp:8-29 | For every sequence of entries, exits, loads, stores and collections, with and without compression and for every buffer size, the loads return what the eager memory returns |
| CacheLines.EvictExact | runtime/src/MShadowCache.cpp:70-89 | Writing a line back leaves exactly the line's meaning in memory if and only if the eviction is clean: as many levels as are written back, or as are active, are no more than the active levels the line is valid for |
| CacheLines.AscendingClean | runtime/src/MShadowCache.cpp:44-68 | Versions ascending over the recorded depth make the eviction clean |
| CacheLines.StartInvalid | runtime/src/MShadowCache.cpp:44-68 | All levels from the result on have versions newer than the line's, and the level before it has not |
| CacheLines.LineIndex | runtime/src/TagVectorCache.cpp:48-60 | The folded address never leaves the line table, also when the number of lines is not a power of two |
| CacheIndex.IndexBits | runtime/src/TagVectorCache.cpp:48-60 | For any number of lines, a bit of the index is set exactly when it is set in the mask and in one but not both slices of the cell number |
| CacheIndex.PowerBits | runtime/src/TagVectorCache.cpp:48-60 | For two to the k lines, bit i of the index is set exactly when i < k and bits i and i + k of the cell number differ |
| CacheIndex.NeverShared | runtime/src/TagVectorCache.cpp:48-60 | Two different cells with the same quotient by the number of lines never share a line |
| CacheIndex.NeighbourStays | runtime/src/MShadowCache.cpp:131-226 | An access puts its cell into the cache and leaves in it every such neighbour that is there, its line untouched |
| CacheIndex.BlockSound | runtime/src/MShadowCache.cpp:68-226 | Every run that stays within as many aligned cells as there are lines is sound, whatever it enters and leaves |
| CacheLines.WriteBackReads | runtime/src/MShadowSkadu.cpp:168-189 | After a write-back, the levels written read as the line had them and all others as before |
| CacheLines.HitRow | runtime/src/TagVectorCacheLine.cpp:17-23 | Zeroing the levels entered since the last access makes the row read as the memory the cache stands for |
| CacheLines.FillBacked | runtime/src/MShadowCache.cpp:212-223 | Overwriting a free line with a cell's row makes the cache stand for that row in the cell and for what it stood for elsewhere |
| CacheLines.DropBacked | runtime/src/MShadowCache.cpp:70-89 | After a line's write-back, clean or not, the cell stands for what was written and every other cell, cached or not, for what it did |
| CacheLines.ResizeBacked | runtime/src/MShadowCache.cpp:100-109 | Once every line is written back, an empty and wider cache stands for the same memory |
| CacheLines.EnterCacheInStep | runtime/src/KremlinProfiler.hpp:97-99 | Entering a level zeroes it for cached and uncached cells alike, without touching either |
| CacheRuns.StepExact | runtime/src/MShadowCache.cpp:68-226 | Where cache and eager memory agree, they agree after an access if and only if the access evicts no line uncleanly other than that of a cell it overwrites at once |
| CacheRuns.AccessAt | runtime/src/MShadowCache.cpp:131-226 | After an access, across hits, misses, conflicts and resizes, each cell is as written by it, or as its line was written back if it was evicted, or as it was |
| CacheRuns.SoundLoads | runtime/src/MShadowCache.cpp:68-226 | On every sound run the cache answers all loads as the eager memory does |
| CacheRuns.UnsoundLoads | runtime/src/MShadowCache.cpp:68-226 | Every run that is not sound has a beginning after which one more load, of a cell that was spoilt, is answered wrongly |
| CacheRuns.AscendingSound | runtime/src/MShadowCache.cpp:44-98 | A run is sound when every line it evicts sees ascending versions over its recorded depth |
| CacheStale.StaleAnswer | runtime/src/MShadowCache.cpp:68-98 | Three levels entered, a cell stored, two left and one entered again, another cell of the line loaded, then the first: the cache answers with a time of a region that is over, the eager memory with zero |
| CacheIndex.TwoCells | runtime/src/TagVectorCache.cpp:48-60 | For any power of two of lines there are two such cells |
| SkaduCaches.GetStartInvalidLevel | runtime/src/MShadowCache.cpp:44-68 | The scan finds the first level of the invalid suffix |
| SkaduCaches.SkaduCache.Evict | runtime/src/MShadowCache.cpp:70-89 | Writes one line back, clean or not: tables and remaining lines stand for the memory with the line's cell as written |
| SkaduCaches.SkaduCache.Flush | runtime/src/MShadowCache.cpp:91-98 | Writes every line back in turn, clean or not: tables and an emptied cache stand for the memory with every such cell as written |
| SkaduCaches.SkaduCache.CheckResize | runtime/src/MShadowCache.cpp:100-116 | Rows too short for the depth are made ten longer after a flush, once |
| SkaduCaches.SkaduCache.Get | runtime/src/MShadowCache.cpp:131-173 | Across hits, misses, conflicts and resizes, returns the specified row and leaves the specified cache, stale write-backs included |
| SkaduCaches.SkaduCache.Set | runtime/src/MShadowCache.cpp:175-226 | A write into the line alone leaves the specified cache, which stands for the memory written |
| SkaduCacheRun.Replay | runtime/src/MShadowCache.cpp:44-226 | On every run the cached, versioned memory gives the specified answers, stale write-backs included, across hits, misses, conflicts, resizes, collections and compression; on a sound run they are the eager memory's |
| SkaduCacheRun.UnsoundFromFresh | runtime/src/MShadowCache.cpp:68-226 | From a fresh cache of any size, a run that is not sound has a beginning after which one more load is answered wrongly |
| SingleTag.SameStart | runtime/src/MShadowSTV.cpp:208-223 | One tag and the full version vector mark the same levels valid |
| SingleTag.TwinsRead | runtime/src/MShadowSTV.cpp:303-318 | A read leaves both forms marking the same levels and both rows equal to the eager memory |
| SingleTag.ReadMarks | runtime/src/MShadowBase.cpp:203-218 | After a read every active level is marked by both forms, and no version of the vector reaches the counter |
| SingleTag.TwinsEntered | runtime/src/MShadowSTV.cpp:208-223 | Entering a level invalidates it in both forms without touching them |
| SingleTag.TwinsWritten | runtime/src/MShadowSTV.cpp:287-301 | A write at a changed depth keeps both forms in step |
| SingleTag.ValidateTag | runtime/src/MShadowSTV.cpp:208-223 | The loop zeroes exactly the levels the tag does not mark |
| SingleTag.ValidateVector | runtime/src/MShadowBase.cpp:203-218 | The loop zeroes exactly the levels the vector does not mark and renews their versions |
| SingleTag.Replay | runtime/src/MShadowSTV.cpp:287-318 | For every history both forms return what the eager memory returns |
| RegionTreeKeeps.OpenKeeps | runtime/src/CRegion.cpp:77-124 | Opening any region keeps the tree invariant: sinks are leaves, lookup keys of siblings are unique, each stack entry's parent is the previous entry's target, statistics indices count live entries, totals match credits |
| RegionTreeKeeps.CloseKeeps | runtime/src/CRegion.cpp:126-177 | Closing keeps the tree invariant |
| RegionTreeKeeps.CloseAllowed | runtime/src/CRegion.cpp:128-132 | What the runtime asserts on closing holds whenever a region is open |
| RegionTreeKeeps.InitiallyOk | runtime/src/CRegion.cpp:55-61 | The new tree satisfies the invariant |
| RegionTreeKeeps.ClosedBalanced | runtime/src/ProfileNode.cpp:65-121 | Closing adds the record once to the target's totals and page, and once more to the sink's when they differ |
| RegionTreeRun.BalancedRestores | runtime/src/CRegion.cpp:77-177 | After any balanced sequence of opens and closes the current node, the stack and all statistics indices are what they were, whatever recursion was folded in between |
| RegionTreeRun.StackDecides | runtime/src/ProfileNode.cpp:136-154 | The region stack alone determines the current node and all statistics indices |
| RegionTreeRun.DepthBound | runtime/src/ProfileNode.cpp:156-195 | With recursion folded, the depth of a node is at most the number of static regions, plus one for a sink |
| RegionTreeRun.NotOnPath | runtime/src/ProfileNode.cpp:156-173 | The search upwards finds every node with the static id on the path to the root |
| RegionTreeRun.DepthCounts | runtime/src/ProfileNode.cpp:156-195 | With recursion folded, static ids on a root path are pairwise distinct, up to a final sink |
| RegionTree.Lookup | runtime/src/ProfileNode.cpp:43-54 | The first child that matches; none before it does |
| RegionTreeRecords.OpenEnters | runtime/src/CRegion.cpp:77-124 | An opening enters the first child of the current node with the static id and, if that child is a function, the call site; a new one has the kind and call site asked for; children of one node differ in static ids, or the elder is a function and call sites differ |
| RegionTreeTotals.RunProfiled | runtime/src/ProfileNode.cpp:65-154 | Whatever happens in a run, walking its events over the final tree tells for each record the node and the page that it was added to; a page's instances, work, critical path, divided work and child counts are the sums, least and greatest of its records', a node is doall exactly if all its records are, every node but the root was entered, and only nodes that a sink stands for start a recursion |
| RegionTreeTotals.AddedSums | runtime/src/ProfileNode.cpp:96-121 | A record added to a page makes its figures those of one record more |
| RegionTreeProgram.RegionContext.GetChild | runtime/src/ProfileNode.cpp:43-54 | The scan returns the first match or none |
| RegionTreeProgram.RegionContext.AncestorWithSameStaticId | runtime/src/ProfileNode.cpp:156-172 | The walk returns the closest ancestor with the static id or none |
| RegionTreeProgram.RegionContext.HandleRecursion | runtime/src/ProfileNode.cpp:175-195 | Turns the closest ancestor into the recursion's head and the child into its sink, or does nothing |
| RegionTreeProgram.RegionContext.OpenRegionContext | runtime/src/CRegion.cpp:77-124 | The object's whole new state after opening a region |
| RegionTreeProgram.RegionContext.CloseRegionContext | runtime/src/CRegion.cpp:126-177 | The object's whole new state after closing a region |
| RegionTreeProgram.Replay | runtime/src/CRegion.cpp:77-177 | For every sequence of events the tree is the specified one and satisfies the invariant; children have distinct keys, pages hold the records the walk over the tree says, no node is there in vain; and with recursion folded no node is deeper than the distinct static ids allow |
| Lzo.Compress | runtime/src/minilzo.cpp:3451-3518 | For every byte string the decoder's meaning of the output is that string |
| Lzo.CompressBlock | runtime/src/minilzo.cpp:3166-3449 | Whatever position the dictionary proposes, the output so far decodes to exactly the input so far and can be continued |
| Lzo.Decompress | runtime/src/minilzo.cpp:3620-4048 | The loop of jumps computes the decoder's meaning for every input, malformed ones included |
| Lzo.RoundTrip | runtime/src/minilzo.cpp:3166-4048 | Decompressing what was compressed gives every byte string back |
| Lzo.MatchParses | runtime/src/minilzo.cpp:3387-3443 | Each of the three match forms parses back to the same length and offset and to the literals packed behind it, followed by whatever follows |
| Lzo.LongRoundTrip | runtime/src/minilzo.cpp:3683-3693 | Zero-run lengths parse back |
| Lzo.RunDecodes | runtime/src/minilzo.cpp:3678-3744 | A literal run of four or more decodes to itself and stops right behind |
| Lzo.LiteralsThen | runtime/src/minilzo.cpp:3242-3310 | Literals in any amount, packed into the match before, in a short run or a long one, decode to themselves before any match |
| Lzo.ReadyStep | runtime/src/minilzo.cpp:3242-3444 | Literals and a match appended to a stream that can be continued leave one that can be continued |
| Lzo.CopyExtends | runtime/src/minilzo.cpp:3990-3996 | A byte-by-byte copy that overlaps itself continues the input as long as the two stretches agree |
| Lzo.FinishShort | runtime/src/minilzo.cpp:3481-3486 | An input of at most 238 bytes without matches decodes from its announcing byte |
| Lzo.MatchLength | runtime/src/minilzo.cpp:3311-3386 | The stretches agree over the length found, which stays inside the input, and differ right behind it unless the end of the block is reached |
| Lzo.CopyBack | runtime/src/minilzo.cpp:3951-3996 | The copy loop computes the overlapping copy |
| Lzo.ParseMatchAt | runtime/src/minilzo.cpp:3774-3941 | The decoder reads a match instruction as specified, with the position behind it |
| LinkEval.Replay | instrument/src/DominatorInternals.h:116-186 | For every interleaving of links, changes of a root's semidominator and evaluations, each evaluation returns a vertex that lies on the linked path up to but excluding the root, and none on that path has a lesser semidominator |
| LinkEval.InfoRecs.Eval | instrument/src/DominatorInternals.h:154-164 | The vertex returned lies on the path and has the least semidominator; the forest and semidominators are unchanged |
| LinkEval.InfoRecs.Compress | instrument/src/DominatorInternals.h:116-152 | Terminates, and shortens the path to its root while every label stays the best of the stretch it stands for |
| LinkEval.InfoRecs.Link | instrument/src/DominatorInternals.h:180-186 | Adds one edge to the forest |
| LinkEval.SkipKeeps | instrument/src/DominatorInternals.h:143-150 | Skipping one ancestor with the better of two labels keeps every record's meaning |
| LinkEval.SegJoin | instrument/src/DominatorInternals.h:144-149 | The least semidominator of two adjoining stretches is the lesser of theirs |
| LinkEval.LinkAbove | instrument/src/DominatorInternals.h:180-186 | Linking a root changes no stretch below it |
| PostDominance.FrontiersExact | instrument/src/PostDominanceFrontier.cpp:37-72 | The recursion computes exactly the post-dominance frontiers if and only if every edge into a node that properly dominates its source starts at that node's child in the tree |
| PostDominance.ComputedIs | instrument/src/PostDominanceFrontier.cpp:37-72 | Under that condition a block is computed for a node exactly when the node dominates one of its successors but not properly the block |
| PostDominance.SuccessorsDominated | instrument/src/PostDominanceFrontier.cpp:45-53 | The condition follows when a block's immediate post-dominator dominates each of its successors |
| PostDominance.PostDominanceFrontier.Calculate | instrument/src/PostDominanceFrontier.cpp:37-72 | Fills in the sets of all nodes below and no others |
| PostDominance.Frontiers | instrument/src/PostDominanceFrontier.cpp:37-72 | The sets of all nodes, and that they are the frontiers exactly under the condition |
| AssocChain.BreakChain | instrument/src/AssociativeDependenceBreak.cpp:143-204 | The new instructions only use earlier ones and the chain's inputs, compute the chain's last value for all inputs under any associative and commutative operation, are one fewer than the inputs, and are made in ceil(log2 n) rounds, and no more than that many have to run one after another |
| AssocChain.RewrittenKeeps | instrument/src/AssociativeDependenceBreak.cpp:175-196 | The rewriting keeps the folded value although an odd last element moves to the front |
| AssocChain.RewrittenCounts | instrument/src/AssociativeDependenceBreak.cpp:175-196 | The rewriting makes exactly n-1 instructions in ceil(log2 n) rounds |
| AssocChain.RewrittenWithin | instrument/src/AssociativeDependenceBreak.cpp:175-196 | The result is no deeper than the inputs by more than the number of rounds |
| AssocChain.CeilLog2Is | instrument/src/AssociativeDependenceBreak.cpp:175-196 | The number of rounds is the least power of two's exponent that reaches n |
| AssocChain.ChainFolds | instrument/src/AssociativeDependenceBreak.cpp:148-173 | The serial chain computes the fold of its external inputs, whichever operand continues the chain |
| AssocChain.FoldMoved | instrument/src/AssociativeDependenceBreak.cpp:181-186 | Moving an odd last element to the front keeps the fold |
| AssocChain.WrappingLawful | instrument/src/AssociativeDependenceBreak.cpp:191 | Addition and multiplication modulo any word size are associative and commutative |
| Placement.PlaceInsts | instrument/src/Placer.cpp:44-146 | Each processed node is processed once and after its users; every newly placed instruction dominates its users in the final layout, in a block that every block dominating all users dominates, with nothing but later placed ones between it and its earliest user there, or the terminator; blocks hold what they held and the new instructions, in undisturbed order; all nodes are processed if and only if the constraint graph is acyclic |
| Placement.Placer.Place | instrument/src/Placer.cpp:111-143 | The instruction ends up dominating all its users, in the latest block that does, right before its earliest user there or the terminator; all earlier dominations and orders are kept |
| Placement.LateOn | instrument/src/Placer.cpp:111-143 | Placing one more instruction keeps all earlier ones as late as can be |
| Placement.Placer.Release | instrument/src/Placer.cpp:97-106 | Takes a node whose users are all processed and releases exactly the dependencies that were waiting for it alone |
| Placement.Placer.Initialize | instrument/src/Placer.cpp:76-92 | Counters are the numbers of users, and the worklist holds exactly the nodes without users |
| Placement.CommonDominator | instrument/src/Placer.cpp:120-124 | The block found dominates all users' blocks, and every block that does dominates it |
| Placement.EarliestUser | instrument/src/Placer.cpp:128-137 | No user in the block precedes the position found |
| Placement.PutDominates | instrument/src/Placer.cpp:120-142 | Before the earliest user in a common dominator is before all users |
| Placement.PutKeeps | instrument/src/Placer.cpp:142 | Later insertions never break a domination |
| Placement.NearestIsNearest | instrument/src/Placer.cpp:123-124 | Every common dominator dominates the nearest one |
| Placement.AllOrdered | instrument/src/Placer.cpp:94-106 | On a ranked graph nothing is left unprocessed when the worklist is empty |
| Placement.OrderRanks | instrument/src/Placer.cpp:94-106 | A full order with users first ranks the graph: on a cyclic graph some node is never processed |
| HashTable.Replay | common/src/hash_map.c:143-338 | For every sequence of puts, gets, removes and reserves under a consistent hash the answers are a finite map's, occupancy is the map's size, and iteration visits each key exactly once |
| HashTable.Table.Get | common/src/hash_map.c:143-163 | The value of the equal key, or none |
| HashTable.Table.Put | common/src/hash_map.c:240-266 | Adds a node where the search ended, overwrites in place when forced, or returns the value that is there; the number of buckets doubles exactly when a new key makes the load reach its limit, which changes nothing else |
| HashTable.Table.Remove | common/src/hash_map.c:268-301 | Removes exactly the equal key and returns its value; no node is added |
| HashTable.Table.Reserve | common/src/hash_map.c:303-338 | Rehashing into any number of buckets moves the same nodes, whose keys and values are not touched, into a new bucket array and keeps the map |
| HashTable.Table.MoveNode | common/src/hash_map.c:321-328 | While some nodes hang in the new array and others in the old, one node is hung behind the end of its new bucket and its successor remembered; all chains stay apart |
| HashTable.Table.Find | common/src/hash_map.c:214-238 | Returns the place that points to the key's node, or to the end of its chain; a node is found exactly if the map has the key, and holds its entry |
| HashTable.Unhang | common/src/hash_map.c:280-297 | Pointing the place before a node behind it leaves the chain without that node |
| HashTable.HangLast | common/src/hash_map.c:321-328 | A node hung behind the end of a chain, its own link cut: the chain with the node, all others unchanged |
| HashTable.Table.Iterate | common/src/hash_map.c:165-202 | An unmodified iteration yields each key exactly once |
| HashTable.Iterator.Next | common/src/hash_map.c:180-202 | Yields the next of the remaining entries, or none exactly at the end |
| HashMap.Located | common/src/hash_map.c:214-238 | In a table whose chains hold a map, the chain of a key's own bucket decides whether the map has it |
| HashMap.OwnBucket | common/src/hash_map.c:209-212 | A bucket holds the keys whose hashes leave its number |
| HashMap.FlatVisits | common/src/hash_map.c:165-202 | Bucket order visits each key of the map exactly once |

## Left out

Profiler:

- ProfileRun.RunBounds: self-parallelism of at least one, and childMaxCP <= cp, are promised of runs whose copies below the instrumented levels are in pace, or in order; ProfileDeep.PaceExact and OrderExact show that no call outside these conditions keeps them, for one copy at a time. Once a copy is out of pace nothing is promised of the level relation for the rest of the run, although the value may never be used.
- ProfileBounds.Cost: operand costs are any numbers below 2^64, where the runtime's are 32-bit.
- Profile.Exited: work divided by self-parallelism is an exact quotient where the runtime divides doubles and truncates; a self path of zero, whose division the C++ code leaves undefined, gives zero.
- `handleVariableNumArgs` (runtime/src/Handlers.cpp:209-299): with more than five operands it overwrites the destination for each bundle, so it is not a maximum over them; calls with a fixed number of operands are modelled instead.
- Profilers.Profiler: register tables, region records and function records are values in sequences of one object, so aliasing between the current table pointer and the innermost function's table is not shown; `level` in a frame is a field of the model only.
- Profile.Legal: the limits the runtime asserts (256 control dependences, 64 queued arguments, registers within their table) are preconditions.
- ProfilerRun.Replay: runs over Skadu without the write-back cache, and with fewer than 64 profiled levels, since the level tables assert that an end index stays below 64 (runtime/src/LevelTable.cpp:114).
- Switching the profiler off and on in mid-run, a minimum level other than zero, statistics counters, writing `kremlin.bin`, the interactive debugger and debug printing.

Shadow memory:

- 32-bit time tables and their conversion: Skadu always asks for 64-bit tables.
- The bound of 32 segments and the linear walk of SparseTable (runtime/src/MShadowSkadu.cpp:35-78): the table is a finite map from page to level table.
- Versions are unbounded: the narrowing to `int` at runtime/src/MShadowCache.cpp:77 agrees below 2^31. The counter, which the runtime does not initialise, starts anywhere.
- `LevelTable`'s constructor does not initialise `compressed`; it is taken to be false.
- When the collector runs is decided by a flag of the event, which covers every period.
- SkaduCacheRun.Replay: loads and stores are of cells other than the one at address zero, which the cache uses as its empty tag, and stored times are positive. That times do not grow with depth, which a debug-only `check` asserts, is not assumed.
- SkaduCaches.SkaduCache.CheckResize: a resize adds ten columns once, as the code does; a depth more than ten beyond the row length, at which the runtime would overrun the row, is left out. A cache as wide as the number of profiled levels, as the runtime makes it (runtime/src/MShadowCache.cpp:27), never meets one.
- SingleTag.Replay: 64-bit accesses on initialised cells; growing a segment's depth and the segment tables are not modelled.
- ClockBuffer.CBuffer.Touch: `std::map` iteration order is address order of the pages, given as a field of each page.
- Lzo.Compress: blocks of eight bytes copied beyond what is needed, and the room of the output buffer, are not modelled.
- Lzo.Decompress: the reads outside the buffers that the unchecked decompressor makes on malformed input are results of their own, `Overrun` and `LookBehind`.
- `mpool`, the mmap free list and the growth of level arrays: allocation is a fresh object.

Region tree:

- RegionTree.AfterClose: minimum and maximum self-parallelism of a page are not modelled. Nodes are numbered instead of linked; `credits` is kept by the model only.

Compiler-side algorithms and hash map:

- LinkEval.Replay: vertices are named by their depth-first numbers; the balanced variant, DFSPass and Calculate are left out.
- PostDominance.Frontiers: blocks are tree nodes, with predecessors outside the tree dropped as the code does; the early return on an empty root list is left out.
- AssocChain.BreakChain: how chains are found, and the erasing of the old instructions, are left out. Floating-point addition and multiplication are not associative; the laws are assumed of the operation, and proved for wrap-around integers.
- Placement.PlaceInsts: an unplaced node must have a user, as the code asserts. Whether instructions that had a place already dominate their users is not claimed.
- HashTable.Table: failing allocation, clear, delete and the optional copy functions are left out; a size of zero, for which the code divides by zero, is excluded. The load factor is a real number, and a node that is taken out is not freed.
- Loop instrumentation, the other LLVM handlers and passes, the planner, the option parser and the build scripts.
