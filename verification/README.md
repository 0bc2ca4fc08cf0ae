# StreamHash in Dafny

StreamHash builds minimal perfect hash indexes: a file that maps each of N keys to a rank of its
own below N and, optionally, to a fingerprint and a payload. Keys are split into blocks by their
leading bytes, every block is solved on its own by one of two algorithms, and blocks are built
serially or by a pipeline of goroutines, from sorted input or through temporary files. This
project models that, from the bits of the codecs up to whole builds, and proves:

- **PTRHash** (`Ptr*`, `BucketHeap`, `CountingSort`). The solver on its reused, generation-tagged
  arrays computes what a specification on finite maps says: free-pilot search, eviction with a
  pinned ring and a heap, drain, retries, remap table. A solved block's decoder maps its keys
  one-to-one onto 0 .. n - 1. Its bytes do not depend on the order in which keys were added.
  `PtrErrors` says, in terms of placements alone, which pilot each phase settles on and what every
  error of a solve means.
- **Bijection** (`Bij*`, `BitIO`, `SeedStream`, `EliasFano`, `EliasFanoUnrolled`). Least-seed
  searches, the two-seed split, the Golomb-Rice seed stream, Elias-Fano coding with checkpoints
  and both of its decoders, the fallback list and its backward scan. The query answers every key
  with the slot the builder gave it, the slots are exactly 0 .. n - 1, and equal metadata means
  equal blocks. `BijErrors` gives the outcome for every bucket, errors included.
- **The parallel build** (`Pipeline*`): a state machine of dispatcher, workers, reordering writer
  and bounded channels, with torn writes, failing builds and cancellation. Every run ends with all
  goroutines gone, success means the serial build's file, and nothing but a fault makes it fail.
- **The unsorted build** (`Unsorted*`): buffers, flushes, partitions and counts hand every block
  exactly its entries. The slot protocol of its parallel finish (`ReadSlots*`) never fills a slot
  that is still read. `SlotPipeline*` joins that protocol with the pipeline at the work channel,
  the workers and the writer's reports, over slots with contents: what a worker reads is its
  block, every run ends, and a finish without an error has published the serial build's file
  (`UnsortedParallel`).
- **The index** (`Index*`, `Routing`, `SortedBuilder`, `BuildModes`, `PtrIndex`, `BijIndex`): file
  format, lookup, verification. All ways to build agree; in the finished index every key is
  answered its rank and payload, and the ranks are 0 .. N - 1. A key that was never added is
  answered a rank only if the fingerprint stored there is its own (`IndexAnswers`,
  `Fingerprints`). `FileLayout` says byte by byte which files open. `PtrIndex` and `BijIndex` fill
  in the block builders, so that these theorems rest on no assumption about blocks but that they
  build.

What the model leaves open: the slot, mix and bucket functions are parameters that stay in range,
which `PtrGeometry` and `BijGeometry` show of the functions in the code for every seed, while
`HashValues` has their laws and, since an index built with other functions could not be read, some
of their values; the random
draws of the PTRHash solver are arbitrary; the number of slots for n keys is any function that is
at least n; xxHash is any function of bytes. I/O faults, cancellation and the order of goroutine
steps are choices of the environment.

## Findings

- **A failed drain can leave goroutines waiting.** `shutdownWorkers` releases the fences of work
  items that cancelled workers leave queued (builder_parallel.go:448-458).
  `drainParallelPipeline` does not: it marks the workers as shut down first
  (builder_parallel.go:404), so when a worker fails during the drain
  (builder_parallel.go:407-419) the later cleanup skips that loop, and in the unsorted parallel
  finish the goroutine of builder_unsorted_finish.go:677-680 waits for ever. So "every `Add` of
  a fence is matched by a `Done`" is false. `ReadSlotsRuns.LeftBehind` says which goroutines stay
  at the end of a run, and `ReadSlotsLeakRun.LeaksExactly` when that can happen, in terms of what
  is known before the call: with the blocks in order, the last block with entries has at least as
  many blocks before it as there are workers, it and the blocks after it fit into the work
  channel of 2 x workers, and no later partition needs its slot. The smallest input,
  `ReadSlotsLeakRun.ThreeBlocksLeak`: two workers and one partition of three blocks with entries.
  That is a statement about the slot protocol, in which any build may fail at any time; under the
  whole finish, writer included, the condition is still needed (`SlotPipelineRuns.WaiterNeeds`).
  The call itself returns in every case, with an error (`SlotPipelineRuns.MaximalRunsEnd`,
  `ReadSlotsResult.NilMeansFaultless`).
- **The Elias-Fano size derivation is off, its bound is right.** internal/bijection/config.go:75-78
  bounds the high bits by 2048 and adds 6 x 1024 low bits. The high bits exceed 2048 for 1025 keys
  (`BijBlock.HighBitsExceed`); they stay within it exactly for at most 1024 keys, and for numbers
  of keys from 1024 x 2^k to below 1025 x 2^k (`BijBlock.HighBitsFit`). There are at most 5 low
  bits per value, and all bits together stay below 8192 (`BijBlock.EFBounds`).
- **RAM index entries hold 40 bits.** Larger values are truncated without an error
  (header.go:190-203); an entry is read back exactly below 2^40 (`IndexFormat.RAMEntryRoundTrip`).
- **The sum check of the merged counts is exact.** As builder_unsorted_finish.go:149-157 claims,
  the 16-bit counts sum to the number of keys only if none has wrapped, and always then
  (`UnsortedCounts.SumDetectsWrap`).
- **The query's fallback to the full decoder has no effect.** internal/bijection/decode.go:77-80
  calls it when the range decoder returns nothing, which on the query's arguments happens only
  below eight bytes, where the full decoder returns without writing
  (`EliasFano.DecodeEFRangeInline`, `EliasFanoUnrolled.DecodeEliasFanoUnrolled`).

## Model

Main results: `PtrDecoder.BlockIsPerfectHash`, `PtrSolver.Solver.Solve`,
`PtrErrors.SolveJustified`, `PtrErrors.CheapestPilot`, `PtrBuilder.BytesOrderFree`,
`BijErrors.BucketOutcome`, `BijQuery.QuerySlot`, `BijPerfect.SlotsAreBijection`,
`BijInverse.MetadataDetermines`, `EliasFanoUnrolled.DecodersAgree`, `PipelineRuns.MaximalRunsEnd`,
`PipelineRuns.SuccessIsTheIndex`, `ReadSlotsLeakRun.LeaksExactly`,
`SlotPipelineRuns.MaximalRunsEnd`, `SlotPipelineRuns.HeldIsIntact`,
`UnsortedParallel.ParallelIsSerial`, `BuildModes.ParallelIsSerial`,
`IndexAnswers.StrangersAreRefused`, and `EveryKeyIsFound`,
`RanksAreAll`, `UnsortedIsSorted` and `ParallelUnsortedIsSerial` in `PtrIndex` and `BijIndex`.

| member | source | states |
|---|---|---|
| `BucketHeap.Heap.Push` | internal/ptrhash/heap.go:28-31 | adds exactly the pushed pair (as uint16s) to the heap’s contents and keeps the heap order |
| `BucketHeap.Heap.Pop` | internal/ptrhash/heap.go:34-42 | removes and returns the pair that no other comes before: the largest bucket, the smaller index among equals, so the result does not depend on the order of the pushes |
| `BucketHeap.Heap.Up` | internal/ptrhash/heap.go:59-68 | lifting an item restores the order, and no item is lost |
| `BucketHeap.Heap.Down` | internal/ptrhash/heap.go:70-86 | sinking an item restores the order among the first n items; no item is lost and the rest do not move |
| `BucketHeap.RootFirstOfAll` | internal/ptrhash/heap.go:50-86 | in a heap-ordered array nothing comes before the root |
| `CountingSort.CountingSortBucketsInto` | internal/ptrhash/counting_sort.go:5-51 | the result lists every bucket once, larger buckets first and equal ones by index, whatever the scratch arrays held |
| `PtrOrder.OrderUnique` | internal/ptrhash/counting_sort.go:5-51 | there is only one such order |
| `PtrFields.FindFreePilot1` | internal/ptrhash/pilot_search.go:43-61 | the unrolled search for one key agrees with the generic one: the least pilot whose slot is free, or none |
| `PtrFields.FindFreePilot2` | internal/ptrhash/pilot_search.go:64-92 | the unrolled search for two keys agrees with the generic one |
| `PtrSolver.Solver.FindFreePilot` | internal/ptrhash/pilot_search.go:17-39 | Phase 1 for any bucket size: the least pilot with distinct free slots, or none exists |
| `PtrSolver.Solver.FindFreePilotSlice` | internal/ptrhash/pilot_search.go:383-436 | finds the least pilot under which all slots are distinct and free, or reports that there is none; every slot marked on the way is unmarked again |
| `PtrSolver.Solver.HasNoDuplicateSlots` | internal/ptrhash/pilot_search.go:457-474 | true exactly when the slots are pairwise distinct; the marks it sets temporarily are all taken back |
| `PtrSolver.Solver.HasNoDuplicateSlotsPhase2` | internal/ptrhash/pilot_search.go:480-497 | true exactly when the slots are pairwise distinct, on every call, across the wrap of phase2Gen |
| `PtrSolver.Solver.HasDuplicateSlotInput` | internal/ptrhash/pilot_search.go:441-451 | true exactly when two keys of the bucket have equal slot inputs |
| `PtrSolver.Solver.FindBestPilot` | internal/ptrhash/solver.go:272-336 | Phase 2 on the arrays: from the drawn start pilot on, a pilot replaces the best so far if its slots are distinct, none belongs to a pinned bucket and its eviction cost is lower; the scan stops at the least possible cost. The pilot, cost and slots kept are the specification’s |
| `PtrSolver.Solver.TryPilotPhase2` | internal/ptrhash/solver.go:289-336 | a pilot is accepted, early exits included, exactly if it improves on the best so far |
| `PtrSolver.Solver.CollectOwners` | internal/ptrhash/solver.go:356-370 | the list holds each owner of the slots once |
| `PtrSolver.Solver.EvictOwners` | internal/ptrhash/solver.go:372-378 | every collected owner loses its slots, is unprocessed and enters the heap, and is counted |
| `PtrSolver.Solver.Pin` | internal/ptrhash/solver.go:142-161 | after a placement the ring of the 16 latest placements and its bitvector still agree: a bit is set exactly for the buckets in the ring |
| `PtrSolver.Solver.EvictBucket` | internal/ptrhash/solver.go:400-418 | frees exactly the slots the bucket still owns |
| `PtrSolver.Solver.PlaceBucket` | internal/ptrhash/solver.go:390-398 | the slots are owned by the bucket and its pilot is recorded, as a byte |
| `PtrSolver.Solver.ProcessBucket` | internal/ptrhash/solver.go:259-384 | one placement on the arrays is one step of the specification, error cases included: two-phase search, evictions, pins, heap |
| `PtrInvariant.ProcessStep` | internal/ptrhash/solver.go:259-384 | after a placement, error-free, the taken slots are the disjoint union of the processed buckets’ slots under their pilots, the ring holds distinct processed buckets, no bucket is lost from processed and pending together, and either an eviction was counted or none happened |
| `PtrInvariant.DisplaceEvicts` | internal/ptrhash/solver.go:263-384 | a Phase-2 placement always evicts some bucket, since otherwise Phase 1 would have succeeded |
| `PtrBlock.TakenCount` | internal/ptrhash/solver.go:390-418 | in every reachable state the number of taken slots is the number of keys in processed buckets |
| `PtrSolver.Solver.DrainHeap` | internal/ptrhash/solver.go:226-239 | the loop over the heap of evicted buckets, with its eviction limit, is the specification’s drain; that one ends because every pop raises the evictions or shortens the heap |
| `PtrSolver.Solver.SolveBuckets` | internal/ptrhash/solver.go:207-249 | the main loop over the bucket order, each bucket followed by its drain, is the specification’s |
| `PtrSolve.SolveComplete` | internal/ptrhash/solver.go:207-255 | a solve without an error has given every bucket a pilot and keeps the slot invariant |
| `PtrSolver.Solver.Solve` | internal/ptrhash/solver.go:175-255 | the whole solve on reused arrays delivers the specification’s pilots and remap table, or its error; what that error means is `PtrErrors.SolveJustified` |
| `PtrErrors.SolveJustified` | internal/ptrhash/solver.go:175-255 | every error of a solve is real: the limit error means that placing buckets has reached a state with more than 10 evictions a slot, a solve without an error stays within that; a duplicate or indistinguishable keys mean a reached state in which no pilot is left for some bucket; overflow means more than 65535 slots, exactly |
| `PtrErrors.CheapestPilot` | internal/ptrhash/solver.go:272-336 | Phase 2 settles on distinct slots of no pinned bucket; no pilot met before it does so as cheaply, and none of the 256 more cheaply unless the cost, a sum over the slots, is at most the square of the bucket’s size |
| `PtrErrors.LeastFreePilot` | internal/ptrhash/pilot_search.go:17-39 | Phase 1 settles on the least of the 256 pilots under which all slots are free and distinct, or there is none |
| `PtrErrors.RingIsRecent` | internal/ptrhash/solver.go:142-161 | in every reachable state the pinned buckets are the sixteen latest that were placed by eviction |
| `PtrSolver.Solver.NextGeneration` | internal/ptrhash/solver.go:604-618 | after the generation moves on, wrap at 254 included, no slot and no bucket carries the new tag |
| `PtrSolver.Solver.Reset` | internal/ptrhash/solver.go:526-631 | for a constant bucket count, any number of solves later: nothing of the previous block is seen as taken or processed |
| `PtrSolver.Solver.BuildRemap` | internal/ptrhash/solver.go:423-473 | computes the specification’s table; the hole search never runs past the keys |
| `PtrSolver.Solver.ScanHole` | internal/ptrhash/solver.go:456-463 | while holes remain the scan finds the next one below the key count, so the panic is not reached |
| `PtrRemap.HolesMatchOverflow` | internal/ptrhash/solver.go:423-473 | when n distinct slots are taken, the taken overflow slots are as many as the holes below n |
| `PtrRemap.TableRemapsOnto` | internal/ptrhash/solver.go:423-473 | the table sends the taken slots one-to-one onto 0 .. n - 1, and every slot at all below n |
| `PtrDecoder.LookupReadsTable` | internal/ptrhash/pilot.go:159-180 | the remap lookup reads back every encoded entry |
| `PtrBuilder.EncodeRemapTableInto` | internal/ptrhash/pilot.go:159-166 | writes the table’s bytes at the given place, nothing before it |
| `PtrBuilder.Builder.EncodeMetadataInto` | internal/ptrhash/builder.go:214-224 | behind the pilots the solver has written, the table completes the block’s metadata and leaves the pilots alone |
| `PtrDecoder.QueryIsFinalSlot` | internal/ptrhash/decoder.go:31-71 | on the bytes of a solved block any key, member or not, is answered a slot in range, without an error |
| `PtrDecoder.BlockIsPerfectHash` | internal/ptrhash/decoder.go:31-71 | the decoder maps the keys of a solved block one-to-one onto 0 .. n - 1 |
| `PtrOrder.SolveAgrees` | internal/ptrhash/solver.go:175-378 | the solve depends only on which slot inputs each bucket holds: not on the order of the keys, nor on payloads or fingerprints |
| `PtrBuilder.BytesOrderFree` | internal/ptrhash/builder.go:163-282 | for two orders of the same AddKey calls the attempts end alike, in the same pilots or the same error, so the metadata is one and the payload bytes are equal |
| `PtrBuilder.DuplicatesNeverBuild` | internal/ptrhash/solver.go:338-354 | keys of one bucket with equal slot inputs are never built, whatever the attempts draw |
| `PtrSolve.DuplicatesAreReal` | internal/ptrhash/solver.go:338-354 | a solve reports a duplicate key only if two keys of some bucket have equal slot inputs |
| `PtrBuilder.ReportedAreDuplicates` | internal/ptrhash/builder.go:191-208 | a build whose attempts end in the duplicate-key error has two such keys in some bucket |
| `PtrBuilder.Builder.AddKey` | internal/ptrhash/builder.go:97-109 | the key joins the block’s keys; the buckets stay the grouping of those keys by bucket, in the order added |
| `PtrBuilder.Builder.SolveBlock` | internal/ptrhash/builder.go:191-208 | solves with up to ten attempts; only an exceeded eviction limit is retried |
| `PtrErrors.TenAttempts` | internal/ptrhash/builder.go:191-208 | a block is solved as the first of ten attempts that does not exceed the eviction limit, and the limit is reported exactly if all ten exceed it |
| `PtrBuilder.Builder.EncodePayloads` | internal/ptrhash/builder.go:228-282 | every key’s entry ends up at the slot the decoder answers for it |
| `PtrBuilder.Builder.BuildSeparatedInto` | internal/ptrhash/builder.go:163-186 | the caller’s buffers hold the solved block’s metadata and payloads, or the solve’s error is returned; too many keys, or more slots than a uint16 can name, are an overflow; an empty block has its fixed metadata |
| `PtrBuilder.BlockRoundTrip` | internal/ptrhash/builder.go:257-282 | the entry at the answered slot reads back as the key’s fingerprint and payload |
| `PtrBuilder.EstimateSuffices` | internal/ptrhash/builder.go:322-341 | the size estimate given to callers is never too small, and on a block with keys it is one table entry too large |
| `PtrGeometry.SourceGeometryValid` | internal/ptrhash/pilot.go:64-131 | for every seed the pilot slot function and the bucket function stay in range |
| `HashValues.PilotHashOdd` | internal/ptrhash/pilot.go:50-72 | every pilot’s multiplier is odd, for every seed |
| `HashValues.PilotHashValues` | internal/ptrhash/pilot.go:64-73 | the multipliers of some pilots, in numbers |
| `HashValues.PilotSlotValue` | internal/ptrhash/pilot.go:78-95 | the slot of one input under one pilot and seed, in numbers |
| `HashValues.PtrKeyPlaced` | internal/ptrhash/builder.go:93-109 | under one seed, the slot of a key, from both words, and its bucket among 10000, from the second |
| `HashValues.CubicEpsIsCubic` | internal/ptrhash/pilot.go:104-131 | the fixed-point arithmetic is the stated distribution x^2 (1 + x) / 2 * 255 / 256 + x / 256 over the reals, to within 258 units of 2^-64 and never above it |
| `HashValues.BucketsMonotone` | internal/ptrhash/pilot_test.go:194-220 | larger inputs reach no earlier bucket |
| `HashValues.BucketEnds` | internal/ptrhash/pilot_test.go:239-266 | the least input goes to the first bucket, the greatest to the last |
| `BitIO.BitWriter.WriteBits` | internal/bijection/bitio.go:42-65 | appends the low n bits, across word boundaries |
| `BitIO.BitWriter.WriteOnes` | internal/bijection/bitio.go:67-97 | appends n one-bits, whole words at a time |
| `BitIO.BitWriter.Flush` | internal/bijection/bitio.go:99-109 | returns the bits written, padded with zeros to a byte |
| `BitIO.BitReader.ReadBits` | internal/bijection/bitio.go:157-179 | returns the next n bits of the stream, across a refill, with zeros past its end |
| `BitIO.BitReader.SkipBits` | internal/bijection/bitio.go:181-191 | moves n bits on |
| `BitIO.BitReader.ReadUnaryMax16` | internal/bijection/bitio.go:195-232 | counts the ones up to the next zero, at most sixteen, across words |
| `SeedStream.EncodeSeed` | internal/bijection/encoding.go:192-214 | appends the seed’s Golomb-Rice code |
| `SeedStream.EncodableSeeds` | internal/bijection/encoding.go:170-184 | which seeds have a code, in numbers: below 32, 64, 128, 256, 512, 2048 and 4096 for sizes 2 to 8 |
| `SeedStream.BucketRead` | internal/bijection/decode.go:131-214 | over the codes of a bucket, reading gives what was stored and skipping lands behind it, for empty, direct, split and fallback buckets |
| `SeedStream.DecodeGRSeedFast` | internal/bijection/decode.go:600-617 | decodes the seed at the reader’s position, or the fallback marker |
| `EliasFano.EncodeEliasFanoInto` | internal/bijection/encoding.go:63-138 | a non-decreasing sequence is coded, low bits packed and high parts marked, in exactly the computed size |
| `EliasFano.PackLowBits` | internal/bijection/encoding.go:90-122 | word batching puts each value’s low bits at its place and leaves all else zero |
| `EliasFano.WriteMarks` | internal/bijection/encoding.go:124-135 | the high parts as marks in unary gaps; the low bits stay |
| `EliasFano.CodedUnique` | internal/bijection/encoding.go:63-138 | a sequence has one code |
| `BijInverse.ValuesAgree` | internal/bijection/encoding.go:63-138 | a code stands for one sequence |
| `EliasFano.ScanMark` | internal/bijection/decode.go:378-405 | moves past the next mark through 64-bit windows; without one it stops at the end of the data |
| `EliasFano.DecodeEFRangeInline` | internal/bijection/decode.go:323-412 | from a segment’s checkpoint the decoder returns the coded values; on any data it ends and writes uint16s only |
| `EliasFano.ValueBeforeSegment` | internal/bijection/decode.go:83-91 | the value before a segment follows from the checkpoint and its own low bits |
| `EliasFanoUnrolled.Cursor.Refill` | internal/bijection/decode.go:440-450 | loads the next word, or what is left of the data |
| `EliasFanoUnrolled.Cursor.CrossBoundary` | internal/bijection/decode.go:436-456 | a value that spans two words is put together from both |
| `EliasFanoUnrolled.TakeEight` | internal/bijection/decode.go:492-530 | eight values at a time, from one word or one by one: those at their places in the data, nothing else written |
| `EliasFanoUnrolled.TakeLowBits` | internal/bijection/decode.go:489-556 | all low bits, eightfold and remainder |
| `EliasFanoUnrolled.TakeHighBits` | internal/bijection/decode.go:558-596 | marks and gaps added to the low bits give the values |
| `EliasFanoUnrolled.Cursor.Gap` | internal/bijection/decode.go:561-592 | the unary gap before the next mark, across words; on any data it ends |
| `EliasFanoUnrolled.DecodeEliasFanoUnrolled` | internal/bijection/decode.go:460-597 | of well-formed data of at least eight bytes the full decoder returns every coded value; on fewer than eight bytes, no values or too many it writes nothing |
| `EliasFanoUnrolled.DecodersAgree` | internal/bijection/decode.go:323-597 | range decoder and full decoder agree on every segment |
| `EliasFanoUnrolled.RoundTrip` | internal/bijection/encoding.go:63-138 | coding and fully decoding returns the values whenever the code has eight bytes |
| `BijSolver.SolveBucket2` | internal/bijection/solver.go:13-30 | finds the least seed that separates two keys, or none |
| `BijSolver.SolveBucket3` | internal/bijection/solver.go:33-53 | finds the least seed that separates three keys, or none |
| `BijSolver.TrySeedBitmask` | internal/bijection/solver.go:244-266 | the occupied mask says exactly whether the slots are distinct |
| `BijSolver.SolveDirectBucket` | internal/bijection/solver_build.go:155-212 | the least encodable seed that separates the keys, or none |
| `BijSolver.SolveExtended` | internal/bijection/solver_build.go:214-305 | the least seed up to the extended limit, or the error: a duplicate key exactly if two keys are equal |
| `BijSolver.HasDuplicateMixParts` | internal/bijection/solver_build.go:235-244 | true exactly when two keys are equal |
| `BijSolver.TrySplit` | internal/bijection/solver_build.go:71-98 | accepts a splitting seed exactly if the first half fills its slots one-to-one, and collects the second half |
| `BijSolver.FindSplit` | internal/bijection/solver_build.go:71-98 | the least splitting seed below the limit, with the second half it leaves, or there is none; `BijErrors.SplitSearchFails` has the limit in numbers |
| `BijBuilder.SolveSplitBucket` | internal/bijection/solver_build.go:55-153 | the seeds of both halves, markers and fallback entries included, are those specified, or the error is; `BijErrors.BucketOutcome` says what these are |
| `BijSpec.SplitSlotsDiffer` | internal/bijection/solver_build.go:55-153 | the two-seed argument: in a split bucket all slots are distinct |
| `BijSpec.BucketSlotsDiffer` | internal/bijection/solver_build.go:7-153 | the seeds found give all keys of a bucket distinct slots |
| `BijSpec.BucketSeedsPerm` | internal/bijection/solver_build.go:55-153 | a bucket’s seeds depend on its keys only: not on their order, nor on what is stored with them |
| `BijSpec.DuplicatesReported` | internal/bijection/solver_build.go:55-244 | duplicate keys are always reported as such, wherever a split would put them |
| `BijErrors.BucketOutcome` | internal/bijection/solver_build.go:7-153 | the outcome for every bucket: duplicates and nothing else are reported as such; below eight keys the least of 2^21 seeds that separates them; from eight on the least of 2^20 that puts half of them on the first half of the slots, and the least of 2^21 that separates the rest |
| `BijErrors.SplitSearchFails` | internal/bijection/solver_build.go:55-109 | the split search fails exactly for eight keys or more, without duplicates, that no seed below 1048576 splits |
| `BijErrors.Indistinguishable` | internal/bijection/solver_build.go:214-305 | keys are indistinguishable exactly if no seed below 2097152 separates them, or what the least splitting seed leaves of them |
| `BijBuilder.Builder.SolveBijections` | internal/bijection/solver_build.go:7-53 | the seeds of all buckets and the fallback list of those without a code, or the first error |
| `BijBuilder.Builder.ComputeCumulativeCounts` | internal/bijection/builder.go:494-502 | below the key limit no uint16 wraps: the totals are the true ones |
| `BijBuilder.Builder.AddKey` | internal/bijection/builder.go:143-162 | the key joins the block’s keys; the buckets stay the grouping of those keys by bucket, in the order added |
| `BijMetadata.FallbackRoundTrip` | internal/bijection/decode.go:620-651 | the fallback list is read back as written |
| `BijBuilder.EncodeFallbackList` | internal/bijection/encoding.go:232-274 | writes the list’s bytes: count, packed entries, validation byte |
| `BijMetadata.ListFound` | internal/bijection/decode.go:238-259 | over metadata that ends in a fallback list, the size and validation conditions hold at the list’s own offset and at no other, whatever bytes precede it |
| `BijMetadata.FindFallbackList` | internal/bijection/decode.go:238-259 | the backward scan stops at an offset meeting both conditions, and finds none only if there is none within its reach |
| `BijMetadata.ResolveFallbackSeeds` | internal/bijection/decode.go:230-274 | seeds other than the marker stay; a marker becomes a seed the list holds for that bucket and part, if it holds one |
| `BijBlock.EFBounds` | internal/bijection/config.go:70-79 | at most five low bits, fewer than 8192 bits, at most 1024 bytes |
| `BijBlock.HighBitsFit` | internal/bijection/config.go:70-79 | the high bits stay within 2048 if and only if there are at most 1024 keys, or from 1024 · 2^k to below 1025 · 2^k |
| `BijBlock.HighBitsExceed` | internal/bijection/config.go:70-79 | a block of 1025 keys has 2049 high bits |
| `BijBlock.CheckpointsFit` | internal/bijection/builder.go:429-453 | every checkpoint position fits in 16 bits, so that the position overflow errors cannot occur |
| `BijBlock.MetadataSize` | internal/bijection/config.go:99-113 | no section exceeds its part of the size estimate, so that the buffer error cannot occur |
| `BijBlock.MetadataUnique` | internal/bijection/builder.go:246-299 | a block has one encoding |
| `BijInverse.MetadataDetermines` | internal/bijection/decode.go:35-274 | equal metadata and key counts mean equal bucket sizes and seeds: the encoding is injective |
| `BijBuilder.Builder.EncodeEFWithCheckpoints` | internal/bijection/builder.go:412-441 | writes the Elias-Fano section and records the position of every segment |
| `BijBuilder.Builder.EncodeSeedsWithCheckpoints` | internal/bijection/builder.go:444-492 | writes all seeds and records the position of every segment |
| `BijBuilder.Builder.EncodeSeparatedMetadataInto` | internal/bijection/builder.go:246-299 | assembles the block’s metadata; it fails exactly if the fallback list is too long |
| `BijDecoder.DecodeSegment` | internal/bijection/decode.go:62-91 | of a block’s metadata, the values from the segment’s start to the bucket and the one before the segment, by the range decoder, or by the full one if that gives up |
| `BijDecoder.SkipToBucket` | internal/bijection/decode.go:131-178 | skipping from the segment’s start lands on the bucket’s code |
| `BijQuery.ListRecovers` | internal/bijection/decode.go:191-217 | looking the block’s fallback list up turns the stored codes of a bucket, markers included, back into its seeds |
| `BijQuery.QuerySlot` | internal/bijection/decode.go:35-225 | on a block’s metadata: the bucket’s start plus the key’s slot under the seeds the solver found, or not found for an empty bucket, for any key |
| `BijPerfect.SlotsAreBijection` | internal/bijection/solver_build.go:7-153 | the slots of a solved block’s keys are exactly 0 .. n - 1 |
| `BijPerfect.MetadataOrderFree` | internal/bijection/builder.go:185-214 | permuting the keys of a block that builds gives a block that builds, with the same seeds and the same metadata |
| `BijPayload.PayloadsOrderFree` | internal/bijection/builder.go:332-397 | permuting the keys leaves the payload bytes unchanged |
| `BijPayload.QueryFindsEntry` | internal/bijection/builder.go:332-397 | the query answers the slot at which the key’s entry was written |
| `BijBuilder.Builder.EncodePayloads` | internal/bijection/builder.go:304-397 | every key’s entry ends up at its slot |
| `BijBuilder.ResolveFallbackSeed` | internal/bijection/builder.go:402-409 | finds an entry of the bucket and part, or the list holds none |
| `BijBuilder.Builder.BuildSeparatedInto` | internal/bijection/builder.go:185-214 | builds the block into the caller’s buffers; fails exactly if there are too many keys, a bucket has no seeds, or the fallback list overflows |
| `BijGeometry.SourceGeometryValid` | internal/bijection/mix.go:16-30 | for every seed the mix function and the bucket function stay in range |
| `HashValues.WymixValues` | internal/bijection/solver_test.go:99-120 | the multiply and fold on words the repository pins, because an index built with another fold could not be read |
| `HashValues.MixValues` | internal/bijection/mix.go:23-30 | the slots of one key under two seeds, in numbers |
| `HashValues.BijKeyPlaced` | internal/bijection/builder.go:138-165 | under one seed, both mixed words of a key, its bucket among 1024 from the first word as it was, and its slot |
| `Encoding.WriteEntry` | internal/encoding/encoding.go:34-50 | writes fingerprint and payload, as one packed word, at the position and nothing else |
| `Encoding.WriteEntryGeneric` | internal/encoding/encoding.go:91-127 | the byte-wise writer writes the same bytes |
| `Encoding.ReadWritten` | internal/encoding/encoding.go:58-83 | an entry is read back as written, for every pair of field sizes |
| `FastRange.FastRangeExact` | internal/bits/bits.go:9-15 | result r covers exactly the hashes from r / n to (r + 1) / n of 2^64 |
| `FastRange.FastRangeOnto` | internal/bits/bits.go:9-15 | every value below n is reached, for n up to 2^64 |
| `FastRange.FastRangeEnds` | internal/bits/bits.go:9-15 | the least hash goes to 0, the greatest to n - 1 |
| `IndexFormat.HeaderRoundTrip` | header.go:60-114 | a header comes back exactly if it meets the decoder’s conditions |
| `FileLayout.HeaderExact` | header.go:73-114 | the header of any file is taken exactly when it starts with the magic bytes and version 1 and its fields are in bounds, and refused for the first of these that fails |
| `IndexFormat.RAMEntryRoundTrip` | header.go:190-214 | a RAM index entry is read back exactly if both fields are below 2^40 |
| `IndexFormat.EncodeRAMIndexEntryTo` | header.go:190-203 | writes the ten bytes of the entry and nothing else |
| `IndexFormat.FooterRoundTrip` | header.go:151-170 | the footer is read back |
| `IndexWriter.CommitCommits` | index_writer.go:193-213 | committing a block after n blocks gives the state of n + 1: offsets, folded hashes, metadata and payload bytes |
| `IndexWriter.Writer.CommitBlockWithData` | index_writer.go:193-213 | the fields afterwards are those of the commit function, a torn write included |
| `IndexWriter.Writer.WritePayloadsDirect` | index_writer.go:126-138 | the file afterwards is that of the function by which the pipeline’s workers write; beyond the payload region nothing is written |
| `IndexWriter.Writer.WriteBlockMetadata` | index_writer.go:180-190 | the fields afterwards are those of the function by which the pipeline’s writer commits a block |
| `IndexWriter.Writer.Finalize` | index_writer.go:219-310 | succeeds exactly if every call does, with the finished file |
| `IndexWriter.FinalizedIsIndex` | index_writer.go:219-310 | the finished file is header, tables, payloads, metadata and footer of the committed blocks, whatever the file held before |
| `Routing.SortedKeysRouteInOrder` | builder.go:434-442 | keys in byte order are routed to blocks in order |
| `Routing.RouteExact` | builder.go:434-437 | block b takes exactly the keys whose first eight bytes, read big-endian as a fraction of 2^64, lie from b / n to (b + 1) / n |
| `Routing.RouteOnto` | builder.go:434-437 | every block is some key’s |
| `Routing.RouteEnds` | builder.go:434-437 | eight zero bytes go to the first block, eight bytes 0xFF to the last |
| `WordMix.MixerInvertible` | key.go:68-71 | multiplication by the fingerprint mixer is a bijection on words |
| `Fingerprints.FourByteFingerprint` | key.go:73-102 | two keys share a fingerprint of four bytes exactly if the upper halves of their mixed words agree |
| `Fingerprints.ShorterFingerprint` | key.go:73-102 | a shorter fingerprint is the low bytes of the four |
| `Fingerprints.MixerSeen` | key.go:68-102 | the fingerprints of two keys, in numbers: the halves of the mixer |
| `IndexReader.FinishedOpens` | index.go:143-211 | a finished file opens, exactly if it has at least 304 bytes |
| `FileLayout.OpensExactly` | index.go:143-211 | any file opens exactly when it has 304 bytes, a good header, and room for the sections and the table it speaks of; the parts are where these say |
| `FileLayout.FinishedLayout` | index_writer.go:219-312 | a finished file starts with the magic bytes and the version; its length is 64, both sections, 10 for each block and 10 more, the entries, the metadata and 32 |
| `IndexReader.EntryRead` | index.go:219-221 | the i-th RAM index entry is the keys and metadata before block i |
| `IndexLookup.LookupFinds` | index.go:399-461 | given blocks that answer their keys, a lookup answers each key its rank, with or without the fingerprint check |
| `IndexLookup.QueryFinds` | index.go:526-552 | given such blocks, a payload query answers each key its rank and its own payload |
| `IndexLookup.RanksDiffer` | index.go:399-461 | no two keys share a rank |
| `IndexLookup.RankTaken` | index.go:399-461 | every rank below N is some key’s |
| `IndexLookup.LookupStaysInRange` | index.go:399-461 | any key at all is answered a rank below N or an error; `IndexAnswers.CheckedLookup` says which |
| `IndexAnswers.CheckedLookup` | index.go:380-394 | on any valid index, a checked lookup answers a rank only if the bytes at payloadRegionOffset + rank * entrySize are the key’s fingerprint; where they are another’s the key is not found, and where the file ends before them the index is corrupted |
| `IndexAnswers.QueryReads` | index.go:526-552 | a payload query reads the bytes behind that fingerprint, little-endian, and refuses keys below 16 bytes |
| `IndexAnswers.LookupExact` | index.go:399-461 | on a finished file any key is answered the decoder’s slot in the block of its prefix behind the keys of earlier blocks, or not found if that block is empty |
| `IndexAnswers.StrangersAreRefused` | index.go:380-461 | in a finished index a key answered another’s rank has that key’s fingerprint, and is not found if it has not |
| `IndexVerify.Verify` | index.go:642-715 | the loop over blocks gives the verdict defined on all block hashes at once |
| `IndexVerify.VerifyExact` | index.go:642-715 | a file of these blocks is accepted exactly if the footer’s payload hash is that of the block hashes and, when there is metadata, its metadata hash is that of the metadata |
| `IndexVerify.VerifyAccepts` | index.go:642-715 | a finished file is accepted |
| `IndexVerify.AlterationNeedsCollision` | index.go:642-715 | altered blocks under the same footer are accepted only if the hash collides |
| `SortedBuilder.Builder.AddKey` | builder.go:203-241 | a key of an earlier block is refused, exactly; otherwise it joins the keys, and all blocks before its own are committed, gaps as empty blocks (the class invariant); it succeeds unless the block before does not build or a write of a block committed by this call fails, and the error says which |
| `SortedBuilder.Builder.MoveTo` | builder.go:219-241 | commits the current block and empty ones up to the key’s, with the same conditions for each error |
| `SortedBuilder.Builder.BuildBlock` | builder.go:315-339 | commits the current block’s keys as the next block; it reports a failed block exactly if they do not build, and a failed write only if one of that block’s fails |
| `SortedBuilder.Builder.Finish` | builder.go:273-312 | a wrong key count is reported, exactly; without an error the file is the index of all keys added; each other error only for its cause, so that it succeeds if nothing fails |
| `SortedBuilder.Feeder.AddKey` | builder_parallel.go:89-125 | the key joins the pending block; every block before it has been sent once, in order (the class invariant) |
| `SortedBuilder.Feeder.DispatchBlockWork` | builder_parallel.go:139-159 | sends the next block with the keys before it and moves on |
| `SortedBuilder.Feeder.Finish` | builder_parallel.go:378-394 | every block has been sent once, in order, with its entries and the keys before it |
| `BuildModes.FeederSendsTheJob` | builder_parallel.go:139-146 | what is sent is the pipeline’s job, block by block, with the same offsets |
| `BuildModes.PipelineRunsTheFeed` | builder_parallel.go:139-159 | in every run, work queued for or held by a worker is something the feeder sent |
| `BuildModes.Feed` | builder_parallel.go:89-125 | keys in block order, fed and finished, send the job of those keys |
| `PipelineControl.StepKeeps` | builder_parallel.go:168-461 | an error, once met, is kept: reported, stored or still to be read, and the workers are cancelled |
| `PipelineContent.PayloadsApart` | builder_parallel.go:222-246 | the payload ranges of different blocks do not overlap |
| `PipelineContent.BuildKeepsOthers` | builder_parallel.go:236-253 | a worker’s write, torn or not, leaves the payloads of other blocks alone |
| `PipelineResult.SoundKeeps` | builder_parallel.go:168-461 | every step keeps: each block is in one place at most, in flight or written, and the writer has committed the first blocks in order |
| `PipelineResult.AllWritten` | builder_parallel.go:317-360 | when all workers have left without an error and nothing was dropped, every block has been written once |
| `PipelineRuns.StepDecreases` | builder_parallel.go:168-461 | every step of every goroutine uses up some of the work left |
| `PipelineRuns.RunsAreBounded` | builder_parallel.go:168-461 | every run is finite: at most nine steps a block, two a worker, and nine |
| `PipelineRuns.NotStuck` | builder_parallel.go:401-461 | until the call has returned and every goroutine has exited, some goroutine can step |
| `PipelineRuns.MaximalRunsEnd` | builder_parallel.go:401-461 | a run that cannot go on, but for an outside cancellation, has returned with all goroutines gone |
| `PipelineRuns.SuccessIsTheIndex` | builder_parallel.go:317-431 | a run that returns nil has published the index of all blocks: none is missing |
| `PipelineRuns.FaultlessRunsSucceed` | builder_parallel.go:401-431 | without faults every maximal run returns nil |
| `BuildModes.ParallelIsSerial` | builder_parallel.go:317-360 | whatever the interleaving, a successful parallel build publishes the serial builder’s file |
| `ReadSlotsSafety.SafeKeeps` | builder_unsorted_finish.go:536-681 | every step keeps: one token a slot, fences that count exactly the outstanding items, readers in stride |
| `ReadSlotsSafety.ReceivesInOrder` | builder_unsorted_finish.go:594-627 | the caller receives the partitions in order |
| `ReadSlotsSafety.FillingIsExclusive` | builder_unsorted_finish.go:561-582 | while a reader fills a slot or offers it, no unreleased work item refers to it: neither queued nor held |
| `ReadSlotsRuns.NotStuck` | builder_unsorted_finish.go:536-691 | until the call has returned and readers and workers are gone, some goroutine can step |
| `ReadSlotsRuns.RunsEnd` | builder_unsorted_finish.go:536-691 | every run is finite and ends with the call returned |
| `ReadSlotsDelivery.TakenInOrder` | builder_unsorted_finish.go:629-674 | blocks are taken by the workers in the order dispatched, each once |
| `ReadSlotsDelivery.NilMeansDelivered` | builder_unsorted_finish.go:594-691 | a finish that returns nil has had every block built: as many finished as there are blocks, nothing queued, no fence held |
| `ReadSlotsResult.NilMeansFaultless` | builder_unsorted_finish.go:587-691 | after a failed build, read, write or finalization the error returned is not nil |
| `ReadSlotsResult.FaultlessReturnsNil` | builder_unsorted_finish.go:536-691 | without faults and cancellation every maximal run returns nil |
| `ReadSlotsRuns.LeftBehind` | builder_parallel.go:401-461 | when nothing more can happen, a goroutine waits for a slot’s fence exactly if an item of that slot is still queued, and then only after a return through the drain whose workers failed |
| `ReadSlotsLeak.LeakNeeds` | builder_parallel.go:401-419 | if some run leaves such a goroutine, then at least as many blocks as workers precede the last one with entries, that one and the rest fit into the work channel, and no later partition needs its slot |
| `ReadSlotsLeakRun.LeaksExactly` | builder_parallel.go:401-419 | some run leaves such a goroutine if and only if the plan meets that condition, which is read off block counts and workers before the call |
| `ReadSlotsLeak.LeakNumbers` | builder_unsorted_finish.go:20-40 | the condition in numbers: 2 blocks a worker fit the channel, and the slots come round after 2, 4 or 6 partitions |
| `ReadSlotsLeakRun.ThreeBlocksLeak` | builder_parallel.go:401-419 | one partition of three blocks, all with entries, and two workers do |
| `SlotPipeline.Projects` | builder_unsorted_finish.go:513-691 | every run of the whole finish, seen from the slots, is a run of the slot protocol, and seen from the workers, a run of the pipeline |
| `SlotPipelineLink.GoodKeeps` | builder_unsorted_finish.go:513-691 | every step keeps what holds between the two: equal queues, workers and errors, as many blocks sent as received, and in every slot with outstanding work the partition of that work |
| `SlotPipelineRuns.HeldIsIntact` | builder_unsorted_finish.go:646-680 | a worker that holds a block from a slot: the slot still holds what was read for the block’s partition, and no reader is writing to it |
| `SlotPipelineRuns.NotStuck` | builder_unsorted_finish.go:513-691 | until the call has returned and readers, workers and writer are gone, some goroutine can step, whatever channels are full and whatever has failed |
| `SlotPipelineRuns.RunsAreBounded` | builder_unsorted_finish.go:513-691 | every run is finite |
| `SlotPipelineRuns.MaximalRunsEnd` | builder_unsorted_finish.go:513-691 | a run that cannot go on has returned with readers, workers and writer gone |
| `SlotPipelineRuns.NilPublishes` | builder_unsorted_finish.go:682-691 | a finish that returns nil has published the index of all blocks |
| `SlotPipelineRuns.FaultlessReturnsNil` | builder_unsorted_finish.go:513-691 | if every block builds, the counts agree, the file has room, nothing fails and nobody cancels, every maximal run returns nil |
| `SlotPipelineRuns.WaiterNeeds` | builder_parallel.go:401-419 | if a run of the whole finish leaves a goroutine waiting for a fence, the plan meets the condition |
| `UnsortedLayout.EntryRoundTrip` | builder_unsorted.go:381-388 | an entry on disk is read back; a payload there is no field for becomes zero |
| `UnsortedLayout.FlushHolds` | builder_unsorted.go:355-409 | a flush appends exactly its entries to its region and leaves the others alone |
| `UnsortedWriter.WriterState.AddKey` | builder_unsorted.go:304-322 | the entry joins those added; what is on disk, in flight and in memory stays exactly what was added (the class invariant); it succeeds while no write fails and the regions have room |
| `UnsortedWriter.WriterState.Flush` | builder_unsorted.go:326-351 | waits for the flush in flight, reports its failure, swaps buffers; nothing added is lost; it fails exactly if that flush could not write |
| `UnsortedWriter.WriterState.DoFlush` | builder_unsorted.go:355-409 | each partition’s region gains the buffer’s entries behind those it had, counts included; it succeeds exactly if every partition’s entries fit and no write fails |
| `UnsortedWriter.WriterState.FlushAll` | builder_unsorted.go:413-428 | afterwards the disk holds every partition’s entries in the order added; it succeeds while no write fails and the regions have room |
| `UnsortedReader.ReadRegion` | builder_unsorted_finish.go:118-145 | for any read buffer the records of the region come out whole and in order |
| `UnsortedReader.PartitionReadsBack` | builder_unsorted_finish.go:51-110 | what a writer flushed to a partition decodes to its entries |
| `UnsortedFinish.Scatter` | builder_unsorted_finish.go:97-108 | the scatter puts each entry behind the earlier ones of its block |
| `UnsortedFinish.SortByBlock` | builder_unsorted_finish.go:340-357 | the counting sort gives each block its entries in their order |
| `UnsortedFinish.MergeBlockCounts` | builder_unsorted_finish.go:158-178 | succeeds exactly if the merged counts add up to the number of keys |
| `UnsortedCounts.SumDetectsWrap` | builder_unsorted_finish.go:158-178 | the sum of the uint16 counts is the number of keys if and only if none has wrapped |
| `UnsortedFinish.AcceptedCountsMatch` | builder_unsorted_finish.go:158-178 | accepted counts are the true ones |
| `UnsortedFinish.ReadPartition` | builder_unsorted_finish.go:51-110 | each block of the partition receives exactly its entries, writer by writer in the order added |
| `UnsortedFinish.MaxPartitionEntries` | builder_unsorted_finish.go:181-194 | the size given to the slots’ buffers holds every partition, and is the size of one of them |
| `UnsortedFinish.FinishFastPath` | builder_unsorted_finish.go:311-407 | when no writer has flushed, each block’s entries, payloads cut to their field, are those the partitions would give back |
| `UnsortedFinish.EntriesOfBlock` | builder_unsorted_finish.go:51-110 | a block’s entries are those routed to it, for any flush pattern and split among writers |
| `BuildModes.SameBlock` | builder_unsorted_finish.go:51-110 | a block builds the same from the unsorted writers and from the sorted keys |
| `BuildModes.UnsortedIsSorted` | builder_unsorted_finish.go:241-292 | the unsorted build makes the blocks of the sorted one |
| `UnsortedParallel.PlanFits` | builder_unsorted_finish.go:51-68 | the partitions of a layout list the blocks in order, the last ones possibly short or empty |
| `UnsortedParallel.HeldEntries` | builder_unsorted_finish.go:653-674 | if a slot is filled with what reading its partition delivers, the entries a worker takes from it are those of its block |
| `UnsortedParallel.ParallelIsSerial` | builder_unsorted_finish.go:513-691 | whatever the interleaving and the split among writers, a parallel unsorted finish that returns nil publishes the serial sorted builder’s file |
| `BuildModes.EveryKeyIsFound` | index.go:526-552 | end to end: each key added is answered its rank and its own payload |
| `BuildModes.RanksAreAll` | index.go:399-461 | the ranks of the N keys are 0 .. N - 1, each once |
| `BuildModes.AnyKeyStaysInRange` | index.go:399-461 | a key never added is answered below N, or an error |
| `BuildModes.FinishedVerifies` | index.go:642-715 | the file a successful build leaves verifies |
| `PtrIndex.BuildBlock` | builder_parallel.go:198-238 | a worker’s turn with the PTRHash builder yields a block of its entries if they can be solved, and none otherwise |
| `PtrIndex.MeetsAll` | algorithm.go:63-175 | PTRHash blocks answer each of their keys its own slot, do not depend on the order of the keys, and answer any key in range |
| `PtrIndex.MeetsPayloadFree` | algorithm.go:81-91 | a PTRHash block does not depend on payload bytes it has no field for |
| `PtrIndex.ImplementedOnce` | algorithm.go:124-146 | for every valid setup such blocks exist of any entries, and are determined by them |
| `PtrIndex.EveryKeyIsFound` | index.go:526-552 | in a finished PTRHash index each key added is answered its rank and payload; of the blocks it assumes only that they build |
| `PtrIndex.RanksAreAll` | index.go:399-461 | its ranks are 0 .. N - 1, each once, and other keys stay in range |
| `PtrIndex.UnsortedIsSorted` | builder_unsorted_finish.go:241-292 | unsorted and sorted PTRHash builds agree |
| `PtrIndex.ParallelUnsortedIsSerial` | builder_unsorted_finish.go:513-691 | a parallel unsorted PTRHash finish that returns nil publishes the file of the serial sorted build |
| `BijIndex.Query` | internal/bijection/decode.go:35-225 | on bytes that are some block’s metadata the query gives what the decoder function of the whole-index theorems gives |
| `BijIndex.BuildBlock` | builder_parallel.go:198-238 | a worker’s turn with the bijection builder yields a block of its entries if they can be solved, and none otherwise |
| `BijIndex.MeetsAll` | algorithm.go:63-175 | bijection blocks answer each of their keys its own slot, do not depend on the order of the keys, and answer any key in range |
| `BijIndex.MeetsPayloadFree` | algorithm.go:81-91 | a bijection block does not depend on payload bytes it has no field for |
| `BijIndex.ImplementedOnce` | algorithm.go:124-146 | for every valid setup such blocks exist of any entries, and are determined by them |
| `BijIndex.EveryKeyIsFound` | index.go:526-552 | in a finished bijection index each key added is answered its rank and payload; of the blocks it assumes only that they build |
| `BijIndex.RanksAreAll` | index.go:399-461 | its ranks are 0 .. N - 1, each once, and other keys stay in range |
| `BijIndex.UnsortedIsSorted` | builder_unsorted_finish.go:241-292 | unsorted and sorted bijection builds agree |
| `BijIndex.ParallelUnsortedIsSerial` | builder_unsorted_finish.go:513-691 | a parallel unsorted bijection finish that returns nil publishes the file of the serial sorted build |

## Left out

- The other unrolled searches (findFreePilot3 to 8, solveBucket4 to 8): copies of the sizes
  modelled; buckets of these sizes go through the general search, which finds the same pilot or
  seed.
- Memory reuse below the solver's arrays: slices of structs are `seq` fields that methods
  reassign, so aliasing between a buffer and its slices, buffer pools and `unsafe` are not seen.
- Sizing by floating point (buckets, slots, block counts, file size): parameters with the bounds
  the code needs.
- Mapping, prefetching, advice to the kernel, statistics, batched queries, open variants, options
  and key pre-hashing.
- Error values: builders say which error; the pipeline and the slot protocol say only whether
  there is one.
- A worker that cannot create its block builder, in the unsorted finish: newBlockBuilder fails only
  on an algorithm that the builder's own call, with the same arguments, has already refused
  (builder.go:109, algorithm.go:187-196). The pipeline has the step.
- A failing buffer cleanup before the drain (builder_unsorted_finish.go:685-687): it cannot happen,
  since the cleanup always returns nil (builder_unsorted_finish.go:224-237).
- ReadSlotsRuns.NotStuck: without the result channel and the writer, which the environment plays;
  SlotPipelineRuns.NotStuck has them.
- ReadSlotsRuns.RunsEnd: likewise; SlotPipelineRuns.MaximalRunsEnd has them.
- ReadSlotsDelivery.NilMeansDelivered: counts finished blocks; SlotPipelineRuns.NilPublishes has the
  file.
- ReadSlotsLeakRun.LeaksExactly: about the slot protocol, where the environment decides which builds
  fail; for the whole finish only SlotPipelineRuns.WaiterNeeds is stated.
- PtrSolver.Solver.FindFreePilot: sizes 3 to 8 by the general search, as said above.
- PtrBuilder.DuplicatesNeverBuild: which error is returned is not determined, since another bucket
  may fail first; PtrBuilder.ReportedAreDuplicates says what the duplicate-key error means.
- The pipeline dispatches a block at any moment after the one before it; which AddKey call does so
  is the feeder's matter (`BuildModes.PipelineRunsTheFeed`).
- The test-only fault hook of the writer.
- The periodic context and key-length checks of the AddKey calls, AddKeys' goroutines, and the
  retry of a commit after an error that the caller ignored.
- The read-ahead of the single-threaded unsorted finish: its partitions are read as in the
  parallel one.
- Concurrency inside a flush: the background goroutine owns its buffer until it is waited for, and
  its writes are one step.
- PtrSolver.Solver.Reset: stated for a constant bucket count, which is what the builder passes.
  Clearing stops at the current bucket count (internal/ptrhash/solver.go:617).
- BijIndex.Query: agrees with the decoder function where the bytes are some block's metadata; on
  other bytes the query still ends, and what it answers is not stated.
- Index: a value here, since nothing changes it after opening.
