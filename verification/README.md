# LFU, the Lustre Find Utility: a verified model

LFU scans the objects of a Lustre metadata target.  A filter is compiled from `lfs find` syntax and evaluated per
object, either by a pool of userspace workers reading the device, or inside a kernel producer that feeds a ring the
scanner reads from.  This project models that machinery in Dafny and proves what it is meant to guarantee.

| file | what it models |
|---|---|
| `Ring.dfy` | the stall-never-drop ring as a transition system: one shared access per step, every interleaving of producer and reader, waiting as test, enqueue, test again, sleep |
| `RingLiveness.dfy` | a bound on the steps between a read and its return |
| `RingScan.dfy` | the producer's walk over the iterator and the ring it feeds, as one transition system |
| `RingBuffer.dfy` | the same ring's array, 64-bit counters and mask, as its two ends use them |
| `Control.dfy` | the device's control path: SET_FILTER, the read that starts the scan, other ioctls, in any order |
| `Filter.dfy`, `Eval.dfy` | the compiled filter and the tiered three-valued evaluator |
| `Lov.dfy`, `LovEncode.dfy`, `Linkea.dfy`, `CStrings.dfy` | the on-disk decoders on arbitrary bytes, with encoders as partners |
| `Text.dfy`, `Quantities.dfy`, `Options.dfy`, `IndexLists.dfy`, `Compiler.dfy` | the filter compiler: `strtoull`, sizes, times, option arguments, index lists, and any sequence of option calls |
| `Core.dfy`, `Device.dfy` | classification, the per-object pipeline, counters, and the two device backends' loops |
| `Kernel.dfy`, `Pushdown.dfy`, `PushdownLimits.dfy` | the kernel-side filter, the lossy wire record, the consumer, and when the two pipelines agree |
| `Chunks.dfy`, `Pool.dfy`, `PoolScan.dfy`, `Bags.dfy` | the parallel scan: chunk geometry, the worker pool, and what its workers print and count together |
| `Par.dfy`, `Fanout.dfy`, `FanoutLiveness.dfy` | the checksum harness, the fan-out harness, and why the latter comes to an end |
| `EndToEnd.dfy` | command line, device, ring and printed lines, put together |
| `Bits.dfy`, `Records.dfy`, `Seqs.dfy` | word arithmetic, shared records, sequence facts |

Conventions.  Integers are unbounded with explicit ranges (`byte`, `u16`, `u32`, `u64`); where the code wraps, the
model writes the modulus.  The ring's free-running counters are unbounded and `Ring.WrapHarmless` shows that the 64-bit
ones give the same slot and distance.  The demand mask is a set of four xattr names, and the counters of a scan are a
bag of what was counted.  Concurrent code is a state machine under sequential consistency; a run is any sequence of
enabled steps.  `fnmatch`/`glob_match`, `getpwnam`, `getgrnam`, the clock, the inode table, `dmu_object_next` and the
otable iterator are parameters.

Where the code and its documentation disagree the model follows the code, and a lemma says exactly when the documented
property holds:

* A read that returns end of file has delivered everything only if `done` is sampled before `head`; the code samples
  it after (`Ring.EofAlwaysCompleteExactlyWhen`).  The fan-out workers have the same shape
  (`Fanout.DrainsExactlyWhen`).
* End of file with error zero stands for a completed scan; a failing `next()` ends the producer's walk, and a failing
  `rec()` skips an object, with error zero too (`Kernel.Produce`, `EndToEnd.CleanEofCoversExactlyWhen`).
* `--size 1M` is documented as `(0, 1M]`; the margin compiled is 512 bytes whatever the unit
  (`Compiler.UnitWindowMetExactlyWhen`).
* A scan for which no worker thread could be started returns success having scanned nothing
  (`Pool.ScanCompleteExactlyWhen`); a `lfu_par` worker that cannot set up its environment leaves no error behind
  (`Par.SameCountersExactlyWhen`).
* The wire carries neither the LMA flags nor whether there was an LMA.  The pushed-down scan prints objects the device
  scan hides, among them objects without an LMA for which the iterator made up a FID, and with `--show-internal` also
  the other way round (`PushdownLimits.PartWaysExactlyWhen`).  An oversized xattr makes the kernel undecided where the
  device scan decides, and its line lacks what did not fit (`PushdownLimits.OversizedAgreeExactlyWhen`).
* Each `!` is documented to negate the next predicate; a refused `--ost`, `--pool` or `--name` in between swallows it
  (`Compiler.NegatedAsMeantExactlyWhen`) and leaves its demand in the mask (`Compiler.MaskExactExactlyWhen`).
  `lfu_main` gives up at the first refused option (`Compiler.ParseCommandLine`), so this reaches only callers of
  `lfu_filter_opt` that go on.
* A size that takes up 64 or more characters after the point divides by zero
  (`Quantities.SizeDividesByZeroExactlyWhen`).

## Model

| member | source | states |
|---|---|---|
| `Ring.FifoExact` | src/kernel/lfu_ring.c:160-168 | in every reachable state of every interleaving, tail <= head <= tail + ring_recs, and what was delivered followed by the live slots read through the masked index is exactly what was produced |
| `Ring.NothingDropped` | src/kernel/lfu_ring.c:477-499 | every record that passed the filter is published, or is the one the producer is holding: stall, never drop |
| `Ring.WrapHarmless` | src/kernel/lfu_ring.c:490 | 64-bit wrap-around of head and tail changes neither the masked slot nor the distance |
| `Ring.NoDeadlock` | src/kernel/lfu_ring.c:479-498 | while a read is in progress, producer or reader can move; after release the producer can always move on to its exit |
| `RingLiveness.EveryReadReturns` | src/kernel/lfu_ring.c:749-794 | from any reachable state with a read in progress, producer and reader together take at most 4100 * ring_recs + 4400 steps on the ring, in any interleaving, before it returns, and one of them can always move; objects that do not pass the filter are no steps of the ring |
| `RingScan.RunOfRing` | src/kernel/lfu_ring.c:454-507 | every joint run of the walk and the ring is a run of the ring in which the producer emits exactly the filtered stream of the positions it has passed |
| `RingScan.CleanEofDelivers` | src/kernel/lfu_ring.c:768-778 | a clean end of file, the first with `done` sampled first or the second in either order, means the walk went as far as it could and everything that passed on the way was delivered |
| `RingScan.EofErrorExactlyWhen` | src/kernel/lfu_ring.c:446-448 | an end of file carries an error exactly when load() failed or the walk stopped at an object whose xattr the OSD could not serve |
| `RingScan.EveryReadReturns` | src/kernel/lfu_ring.c:749-794 | the bound on a read with every position of the table counted: at most one turn more for each |
| `Ring.StalledProducerLeavesWork` | src/kernel/lfu_ring.c:479-488 | a sleeping producer leaves at least a batch in the ring, and the read that frees a batch wakes it |
| `Ring.SleepingReaderMissesLessThanABatch` | src/kernel/lfu_ring.c:495-498 | a sleeping reader is owed less than a batch, the scan is not done, and the producer can move |
| `Ring.DoneFirstEofComplete` | docs/rounds/b2-0922/b2bfix.py:337-339 | with `done` sampled first, end of file means everything the filter passed was delivered, and the error reported is the producer's |
| `Ring.SecondEofComplete` | src/kernel/lfu_ring.c:768-778 | in either order a second end of file means everything was delivered |
| `Ring.EofCompleteExactlyWhen` | src/kernel/lfu_ring.c:768-773 | the end of file about to be returned is complete exactly when head has not moved since the first load |
| `Ring.EofCanLeaveRecords` | src/kernel/lfu_ring.c:768-773 | for every ring size and batch the code's order has a run that returns end of file with a record undelivered |
| `Ring.EofAlwaysCompleteExactlyWhen` | src/kernel/lfu_ring.c:768-778 | every end of file on every run is complete exactly when `done` is sampled before `head` |
| `RingBuffer.Buffer.Publish` | src/kernel/lfu_ring.c:489-498 | appends the record to what is unread, across any wrap, and asks for a wakeup exactly at batch boundaries |
| `RingBuffer.Buffer.Read` | src/kernel/lfu_ring.c:780-793 | hands over a prefix of what is unread, capped by the request and the wrap point, leaves the rest, and wakes exactly when a batch is free |
| `RingBuffer.Buffer.Drain` | src/kernel/lfu_ring.c:780-793 | reading until empty returns everything unread, in order |
| `RingBuffer.Published` | src/kernel/lfu_ring.c:489-491 | filling the masked slot at head of a ring that is not full extends the live records by exactly that one |
| `RingBuffer.Contiguous` | src/kernel/lfu_ring.c:780-786 | up to the wrap point the live records lie in the array consecutively from the masked tail |
| `Control.FrozenOnceStarted` | src/kernel/lfu_ring.c:683-693 | once the scan has begun no sequence of calls changes the filter or the flag |
| `Control.ScanKeepsItsFilter` | src/kernel/lfu_ring.c:590-605 | whatever is called before and after the starting read, the scan runs with the filter installed when it started |
| `Control.InstalledIsAnswerable` | src/kernel/lfu_ring.c:702-725 | an installed filter is always validated, within what the OSD supplies, and tests no attribute bit the OSD cannot see |
| `Control.HoldsWhatIsInForce` | src/kernel/lfu_ring.c:683-735 | after any calls the device holds exactly the last acceptable request that preceded the start, with its flag |
| `Control.MaskTestIsEachPred` | src/lfu_filter_eval.c:40-49 | the mask test on the OR of all --attrs bits fails exactly when some predicate tests a bit outside the mask |
| `Control.Device.SetFilter` | src/kernel/lfu_ring.c:683-735 | the ioctl, check by check, performs the specified step and returns its status |
| `Control.Device.Start` | src/kernel/lfu_ring.c:590-605 | the head of read() performs the specified step |
| `Filter.Validate` | src/lfu_filter_eval.c:57-78 | accepts exactly the filters whose every index, flag and string the evaluator may use |
| `Filter.NeedsEmptyIffTier0` | src/lfu_filter.c:92-117 | a compiled filter demands no xattr exactly when it has no tier-1 predicate |
| `Eval.CmpLoop` | src/lfu_filter_eval.c:237-262 | the comparison with its list loop decides the specified relation |
| `Eval.Tier0` | src/lfu_filter_eval.c:274-313 | the early-exit loop passes exactly when every tier-0 predicate, negation applied, holds |
| `Eval.Tier1Pass` | src/lfu_filter_eval.c:507-586 | the early-exit tier-1 loop computes the three-valued outcome: no beats unknown beats yes |
| `Eval.TwoPassIsConjunction` | src/lfu_filter_eval.c:507-586 | tier 0 followed by tier 1 is the Kleene conjunction of all predicates, `!` fixing unknown |
| `Eval.OrderAndRepetitionIrrelevant` | src/lfu_filter_eval.c:274-313 | two filters with the same set of predicates give the same outcome on every object |
| `Eval.DemandMaskSuffices` | src/lfu_filter_eval.c:223-232 | for a compiled filter two objects that agree on the record and the demanded xattrs get the same outcome |
| `Eval.SkipTier1Sound` | src/lfu_core.c:188-199 | with an empty demand mask, passing tier 0 is the whole outcome |
| `Eval.WalkOst` | src/lfu_filter_eval.c:366-437 | on every byte string in bounds; hits exactly when the layout holds an object on a listed OST; without a hit it has visited every object |
| `Lov.DecodeLovLoop` | src/lfu_filter_eval.c:156-204 | the decoder's loop, in bounds on every byte string, computes the fold over the layout's components |
| `Lov.StripeCountExact` | src/lfu_filter_eval.c:102-154 | the decoded stripe count is the exact sum over the components and never wraps 32 bits |
| `Lov.DecoderAndWalkerAgree` | src/lfu_filter_eval.c:366-437 | with no released component the decoded stripe count is the number of objects the walker visits |
| `LovEncode.PlainReadBack` | src/lfu_filter_eval.c:102-154 | a component as an encoder writes it reads back pattern, stripe size, pool and objects in order |
| `LovEncode.CompositeReadBack` | src/lfu_filter_eval.c:156-204 | a composite layout reads back as exactly the components written, in order |
| `LovEncode.LayoutReadBack` | src/lfu_filter_eval.c:366-437 | over any written layout the walker's objects are exactly those written into components that hold any |
| `Linkea.FindName` | src/lfu_filter_eval.c:474-504 | the entry loop is in bounds, hits exactly when a name of the well-formed prefix matches, and is entered at most once more than there are such names |
| `Linkea.LinkeaName` | src/lfu_filter_eval.c:451-505 | on every byte string and either host order: hits exactly when a name of the well-formed prefix matches, in at most len/19 rounds, the one that hits or gives up included |
| `Linkea.SwapInvariant` | src/lfu_filter_eval.c:451-505 | byte-swapping the header changes no answer |
| `Linkea.NamesRoundTrip` | src/lfu_filter_eval.c:451-505 | every name an encoder wrote, in either byte order, is found, in order |
| `Text.DecimalReadBack` | src/lfu_filter.c:248-255 | a decimal number, wherever it stands, is read back exactly and flagged when it exceeds 64 bits |
| `Quantities.SizeIsExact` | src/lfu_filter.c:163-200 | whenever no intermediate exceeds 64 bits a written size parses to whole times unit plus the floor of fraction times unit |
| `Quantities.HugeSizeIsRefused` | src/lfu_filter.c:163-200 | a whole part beyond 64 bits is refused |
| `Quantities.SizeDividesByZeroExactlyWhen` | src/lfu_filter.c:163-200 | over every text: the parser divides by zero exactly when the whole part parses, the suffix is good, and 64 or more characters are taken up after the point |
| `Quantities.WrittenSizeDividesByZeroExactlyWhen` | src/lfu_filter.c:174-198 | a written size does so exactly when its whole part fits 64 bits and 64 or more digits follow the point, whatever they spell |
| `Quantities.FracDivisor` | src/lfu_filter.c:174-180 | the loop computes the power of ten modulo 2^64 |
| `Quantities.TimeIsExact` | src/lfu_filter.c:207-246 | a written time parses to the sum of its terms modulo 2^64 with margin the smallest unit used, at most a day |
| `Quantities.ParseTimeLoop` | src/lfu_filter.c:207-246 | the term loop computes the specified sum and margin, or refuses |
| `Options.IndexListLoop` | src/lfu_filter.c:397-440 | the token and range loops build the specified index list, or refuse with the specified partial list |
| `Options.SpanIsWritten` | src/lfu_filter.c:423-437 | a range is accepted exactly when it fits the list and 32 bits, and then every index in it is appended in order |
| `IndexLists.ListReadBack` | src/lfu_filter.c:397-440 | a written list is accepted exactly when it is shorter than 512 characters, every item is an index or a range within 32 bits and there are at most 64 indices, and reads back as its ranges end to end |
| `Options.DraftIsGood` | src/lfu_filter.c:496-702 | whatever option and text, a predicate that goes in passes validation, is not yet negated, and tests only the five attribute bits |
| `Compiler.AnyCalls` | src/lfu_filter.c:119-136 | any sequence of option calls, failing ones included, keeps the filter bounded and valid, and the mask is the predicates' needs plus what refused options left |
| `Compiler.MaskExactExactlyWhen` | src/lfu_filter.c:654-682 | the mask is exact exactly when nothing was left behind that the predicates do not need anyway |
| `Compiler.AllDoneExactlyWhen` | src/lfu_filter.c:496-702 | all calls succeed exactly when every text is accepted and there are at most 32 predicates |
| `Compiler.CompiledAsWritten` | src/lfu_filter.c:704-711 | when all calls succeed the check passes exactly when no `!` is left over; then the filter validates, holds the predicates as written with each `!` negating exactly the next, and demands exactly their needs |
| `Compiler.AnyCommandLine` | src/lfu_filter.c:496-702 | the same from the texts: any options, in any order, with any texts keep the filter sound, and a command line that compiles gives a valid filter with the predicates as written and exactly their needs |
| `Compiler.ParseCommandLine` | src/lfu_core.c:483-504 | the option loop gives the compiled filter exactly when every call succeeds and no `!` is left over, and gives up at the first refused option |
| `Compiler.PendingExactlyWhen` | src/lfu_filter.c:119-136 | after any calls, failing ones included, a `!` is pending exactly when one stands with no claim of a slot after it, which is what was meant unless a refused option has given its slot back since |
| `Compiler.NegatedAsMeantExactlyWhen` | src/lfu_filter.c:654-682 | after any calls the next predicate is negated as documented exactly when no refused --ost, --pool or --name has given its slot back since the `!` meant for it |
| `Compiler.RefusedOptionSwallowsBang` | src/lfu_filter.c:654-682 | for example: after any calls, `!` and a refused --ost, --pool or --name leave the next predicate unnegated and the refused field's demand in the mask |
| `Compiler.Builder.PredNew` | src/lfu_filter.c:119-136 | claims the next slot and takes up a pending `!`, or leaves the filter alone when it is full |
| `Compiler.Builder.Opt` | src/lfu_filter.c:496-702 | one option call performs the specified step |
| `Compiler.EqualityWindow` | src/lfu_filter_eval.c:237-262 | a size equality hits exactly (val - margin, val], short of where value + margin would wrap |
| `Compiler.AgeWindow` | src/lfu_filter_eval.c:265-272 | an age equality hits exactly [val, val + margin), or nothing when that bound does not fit 64 bits |
| `Compiler.UnsignedSizeHits` | src/lfu_filter.c:557-596 | an unsigned --size or --blocks hits exactly the last 512 bytes up to the number said |
| `Compiler.UnitWindowMetExactlyWhen` | src/lfu_filter.c:566-594 | the documented window of one unit is met exactly for units up to 512 bytes or sizes below 512 bytes, short of where the sum would wrap |
| `Compiler.OneMegabyteMissesOneByte` | src/lfu_filter.c:566-594 | `--size 1M` does not hit a file of one byte |
| `Compiler.LongFractionDies` | src/lfu_filter.c:174-198 | a size option with 64 or more digits after the point, whatever they are, ends the program |
| `Compiler.SixtyFourOnesDie` | src/lfu_filter.c:174-198 | `--size 1.` followed by 64 ones does |
| `Core.MergedTotalsBalance` | src/lfu_core.c:212-236 | the conservation equations of each worker hold of the merged totals of any number of workers |
| `Core.Context.Object` | src/lfu_core.c:140-207 | appends exactly the specified line, if any, counts exactly one class and one decision, keeps emittable = emitted + rejected + withheld, and never passes a non-zero limit |
| `Core.Context.Prefilter` | src/lfu_core.c:60-68 | keeps exactly what passes tier 0 and counts the rest |
| `Device.ScanInodes` | src/lfu_scan_ldiskfs.c:515-609 | prints the lines of the in-use inodes in order, up to the limit, with in_use = filtered + classes; without a stop every counter is the sum over the table |
| `Device.ScanDnodes` | src/lfu_scan_zfs.c:472-506 | prints the lines of the objects in order, up to the limit, with seen = not_znode + sa_fail + filtered + classes; without a stop every counter is the sum over the dnodes |
| `Device.InodesAreObjects` | src/lfu_scan_ldiskfs.c:537-609 | an inode table prints exactly what its in-use objects print |
| `Device.DnodesAreObjects` | src/lfu_scan_zfs.c:498-505 | a walk over dnodes prints exactly what the objects it can read print |
| `Device.ScanInodeChunks` | src/lfu_core.c:302-313 | chunk after chunk, a worker prints the in-use objects of all of them in order, up to the limit |
| `Device.ScanDnodeChunks` | src/lfu_core.c:302-313 | the same over dnodes |
| `Kernel.Produce` | src/kernel/lfu_ring.c:446-507 | the producer emits exactly the filtered stream of the objects it finished; seen = filtered0 + filtered1 + unknown + matches and emitted = matches plus wanted unknowns; an unserved xattr, or a stop while stalled, loses exactly the object in hand; a failing load() is reported, a failing next() or rec() is not, and the walk covers the table exactly when there was none |
| `Pushdown.ConsumeBatch` | src/lfu_scan_kmdt.c:288-311 | prints one batch of records in order, the limit taking effect inside the batch |
| `Pushdown.ConsumeStream` | src/lfu_scan_kmdt.c:270-311 | batch after batch, prints the stream in order up to the limit, wherever the batch boundaries fall |
| `Pushdown.WireCarries` | src/kernel/lfu_ring.c:179-253 | the consumer's record of a wire record holds the producer's values: tier 0, LMA bits, SOM, stripes, pool, LMV, flags masked to the --attrs bits |
| `Pushdown.OnlyTheClassCanDiffer` | src/kernel/lfu_ring.c:306-390 | whatever its LMA says, or without one, either pipeline prints an object exactly when the filter lets it through and that pipeline sees a class it emits; where both print it they print the same line but for the tier-2 marker |
| `Pushdown.SameObject` | src/kernel/lfu_ring.c:306-390 | for each faithfully reported object whose LMA the wire carries, the pushed-down filter prints a line exactly when the device filter does, and the same line but for the tier-2 marker |
| `Pushdown.PushdownTransparent` | src/lfu_scan_kmdt.c:202-251 | over any target of such objects, both pipelines print the same lines in the same order, and the producer never stops short |
| `Pushdown.PushdownAndLdiskfs` | src/lfu_core.c:200-207 | both scans run from scratch, over any chunks, batches and limit: the device scan leaves the first `limit` lines of its objects, and the pushed-down scan the same lines |
| `Pushdown.PushdownAndZfs` | src/lfu_core.c:200-207 | the same against the ZFS backend |
| `PushdownLimits.ClassesAgreeExactlyWhen` | src/lfu_core.c:25-55 | for every filter and option the pipelines agree on an object exactly when the filter holds it back, or both or neither of the classes they see are emitted |
| `PushdownLimits.PartWaysExactlyWhen` | src/lfu_core.c:25-55 | for every object, with or without an LMA, the same in LMA bits and the FID sequence reported, with and without --show-internal |
| `PushdownLimits.UnfilteredAgreeExactlyWhen` | src/lfu_core.c:25-55 | for an unfiltered scan, with and without --show-internal, agreement is decided by the LMA and the FID sequence alone |
| `PushdownLimits.AgentInodeShowsUp` | src/lfu_core.c:25-55 | an agent inode with a namespace FID is hidden by the device scan and printed by the pushed-down one |
| `PushdownLimits.MadeUpFidShowsUp` | src/lfu_scan_kmdt.c:300-303 | so is an object without an LMA for which the iterator made up an IGIF |
| `PushdownLimits.ZeroSequenceIsLost` | src/lfu_scan_kmdt.c:300-306 | with --show-internal an object of FID sequence zero is printed by the device scan and lost when pushed down |
| `PushdownLimits.UnindexedOstObjectIsLost` | src/lfu_core.c:25-55 | so is an object of an OST sequence marked as not in the object index |
| `PushdownLimits.OversizedIsUndecided` | src/kernel/lfu_ring.c:370-381 | an object past tier 0 with an oversized demanded xattr is always undecided, and emitted exactly when undecided objects are wanted |
| `PushdownLimits.OversizedEmittedExactlyWhen` | src/kernel/lfu_ring.c:266-297 | for every filter, option and object: the device scan emits by its class and the verdict, the pushed-down scan by the class of the FID and the verdict, or by the wish for undecided objects when a demanded xattr does not fit |
| `PushdownLimits.OversizedAgreeExactlyWhen` | src/kernel/lfu_ring.c:266-297 | for every filter, option and object the two scans print the same exactly when tier 0 rejects it, or both or neither emit it and, where both do although a demanded xattr does not fit, the device scan is undecided too, the layout fits, and the SOM fits or holds the inode's own size and blocks |
| `PushdownLimits.OversizedSomIsLost` | src/kernel/lfu_ring.c:370-381 | a file without a layout whose SOM is 65 bytes is found by size on the device and lost when pushed down |
| `PushdownLimits.OversizedSomIsTagged` | src/kernel/lfu_ring.c:370-386 | with undecided objects wanted both scans print that file, and the pushed-down line alone is tagged as undecided |
| `Chunks.ZfsScanChunk` | src/lfu_scan_zfs.c:472-506 | hands over exactly the ids of its chunk, in order, and reports done exactly when nothing lies beyond |
| `Chunks.LdiskfsScanChunk` | src/lfu_scan_ldiskfs.c:484-535 | hands over exactly the inode numbers of its block groups, in order, and reports done exactly as specified |
| `Chunks.ParScanRange` | src/kernel/lfu_par.c:141-198 | hands over exactly the ids in its range and reports the end of the table exactly when nothing lies beyond |
| `Chunks.ChunksTile` | src/lfu_scan_ldiskfs.c:387-390 | on every geometry the first n chunks end to end are exactly the ids below the n-th edge |
| `Chunks.LastIsSound` | src/lfu_scan_ldiskfs.c:490-510 | done is never reported while an id lies beyond the chunk |
| `Pool.HandedAtMostOnce` | src/lfu_core.c:265-276 | in every reachable state, failures and limits included, no object has been handed out more often than the target holds it |
| `Pool.HandedExactlyOnce` | src/lfu_core.c:287-316 | a scan that ends without error or limit, with a worker, has handed every object to exactly one worker exactly once, on every schedule |
| `Pool.ScanCompleteExactlyWhen` | src/lfu_core.c:318-363 | on either backend, success without a limit means exactly-once coverage exactly when a worker was started or there was nothing to scan |
| `Pool.NoWorkersScansNothing` | src/lfu_core.c:343-359 | with no worker started the scan ends at once without error, having handed out nothing |
| `Pool.RunsAreBounded` | src/lfu_core.c:287-316 | no schedule runs forever: an explicit bound on the number of steps |
| `Pool.NeverStuck` | src/lfu_core.c:287-316 | while a thread is left to join, some thread can go on without failing |
| `Pool.BackendTiles` | src/lfu_scan_zfs.c:472-506 | both backends' chunks are a tiling of the target's ids that ends |
| `Pool.ScanAlone` | src/lfu_core.c:335-342 | one worker visits the ids in order, each once, on either backend, and ends |
| `PoolScan.AnyScheduleAlike` | src/lfu_core.c:318-363 | on any schedule that ends without error the workers together print the bag of lines and merge to the statistics of a single worker, exactly when one was started or there was nothing to scan |
| `PoolScan.ScanLdiskfs` | src/lfu_core.c:318-363 | that, with each worker's context run over the inodes it was handed and the totals merged |
| `PoolScan.ScanZfs` | src/lfu_core.c:318-363 | the same over dnodes |
| `Pool.Work.NextChunk` | src/lfu_core.c:265-276 | hands out consecutive indices until done |
| `Par.SameCountersExactlyWhen` | src/kernel/lfu_par.c:200-244 | an error-free run leaves the single-iterator counters exactly when some worker got as far as its loop, or those are all zero |
| `Par.SameCountersAsBaseline` | src/kernel/lfu_par.c:141-198 | object count, attr_ok, fidsum and attrsum modulo 2^64 equal the single-iterator run's for every thread count, chunk size and interleaving of the separate atomic adds |
| `Par.CountersExact` | src/kernel/lfu_par.c:188-196 | each counter of an error-free run is the sum over every object drawn, once each |
| `Par.ReportedChecksums` | src/kernel/lfu_par.c:113-133 | an error-free run reports, for every thread count, chunk size and interleaving, the number of objects, of readable attributes, and the sums of the FID and attribute hashes over them, modulo 2^64 |
| `Par.LocalSums` | src/kernel/lfu_par.c:141-198 | the loop counts objects and readable attributes and sums the two hashes, modulo 2^64 |
| `Par.WholeTable` | src/kernel/lfu_par.c:211-216 | the single-iterator path computes the baseline counters |
| `Par.FailedSetupGoesUnreported` | src/kernel/lfu_par.c:207-209 | a run of one worker that cannot set up its environment reports no error and an empty table |
| `Fanout.EntriesConserved` | src/kernel/lfu_fanout.c:216-245 | in every reachable state each entry returned is handled, queued, in hand, pending or given up, as often as it was returned; given up only on abort or without workers |
| `Fanout.HandledAtMostOnce` | src/kernel/lfu_fanout.c:86-121 | no entry is handled more often than it was returned |
| `Fanout.LeftoversAreQueued` | src/kernel/lfu_fanout.c:247-252 | at the end of a run without abort what was not handled is exactly what is left queued |
| `Fanout.DoneFirstLeavesNothing` | src/kernel/lfu_fanout.c:89-97 | with the end flag sampled before the queue, nothing is left |
| `Fanout.CodeOrderCanLeaveEntries` | src/kernel/lfu_fanout.c:89-97 | for any number of workers the code's order has a run without abort that leaves an entry queued |
| `Fanout.DrainsExactlyWhen` | src/kernel/lfu_fanout.c:89-97 | every run without abort drains the queue exactly when the end flag is sampled first |
| `FanoutLiveness.NeverStuck` | src/kernel/lfu_fanout.c:86-121 | while the enumerator or a worker is left, one of them can go on without anything failing |
| `FanoutLiveness.RunsAreBounded` | src/kernel/lfu_fanout.c:216-252 | no schedule, failures included, takes more than 17 * workers + 6 steps, and 17 + 6 * workers for each position the iterator returned |
| `EndToEnd.InstalledFilterRuns` | src/lfu_scan_kmdt.c:109-147 | a compiled filter the OSD can answer is installed and is what the scan runs with, whatever is called later |
| `EndToEnd.CommandLineIsTransparent` | src/lfu_scan_kmdt.c:109-147 | any command line that compiles, whatever its options and texts, gives a filter for which both pipelines print the same lines |
| `EndToEnd.EveryReadIsTransparent` | src/kernel/lfu_ring.c:780-793 | at any moment of any interleaving of the walk and the reader, in either order of the loads, the lines printed from what was read are the first of the device scan's lines for the objects that can be read |
| `EndToEnd.EofIsTransparent` | src/kernel/lfu_ring.c:768-778 | when nothing goes wrong the end of file is clean and exactly the device scan's lines were printed: at the first end of file with `done` sampled first, at the second in either order |
| `EndToEnd.CleanEofCoversExactlyWhen` | src/kernel/lfu_ring.c:502-537 | such an end of file without an error means exactly the device scan's lines were printed for the objects the walk comes by, which are all of the target exactly when no next() and no rec() fails on the way |

## Left out

- Hardware memory ordering: sequential consistency is assumed; acquire and release are plain steps.
- libext2fs, libzpool, the DMU, SA and `dt_it_ops`: an abstract table, an abstract "next object", abstract xattr
  answers.
- `fnmatch` and `glob_match`: one deterministic predicate, the same in both builds.
- Pushdown.SameObject: the tier-2 marker of a line is ignored, because the two sides define it differently (external
  inode block against external xattr).
- Pushdown.PushdownTransparent: both sides are given the same time, whereas the kernel reads its clock when the producer
  starts and the device scan when it does; and the order of objects is the iterator's on both sides.
- PushdownLimits.OversizedAgreeExactlyWhen: an xattr that fails to read, which the producer counts and takes as absent,
  is not compared.
- Device.ScanInodes: inode plausibility and the bitmap test are inputs of each table entry, and the checksum-failure
  skip is the absence of an entry.
- Device.ScanDnodes: which of the return codes of the object reader occurs is an input of each dnode.
- Pool.HandedExactlyOnce: chunk arithmetic is unbounded; ids are far below the point where a 64-bit chunk index times
  the chunk size would wrap.
- PoolScan.ScanLdiskfs: the order in which several workers' lines come out is the schedule's; with --limit there is one
  worker.
- Par.SameCountersAsBaseline: a non-zero `limit` and the counter of non-empty chunks are not modelled.
- Kernel.Produce: the setup before load(), the iterator's own raw and fallback counters and the xattr placement counters
  are not modelled.
- Control.Device.SetFilter: allocation of the scratch buffers is one success flag.
- Printing, usage text, reports, timing, getopt tables, pool import, device open and close, and the target dispatch of
  `src/lfind.c`: no invariant spans several of their calls.
- `src/kernel/lfu_it.c` and the bench programs: measurement loops without an invariant of their own.
- `docs/rounds`: patches to a tree that is not here; only the prescribed order of the two loads is taken from them.
