/** The bijection block builder: keys into buckets, seeds for every bucket, and the
    metadata bytes. */
module BijBuilder {
  import opened Basics
  import opened LittleEndian
  import opened Words
  import opened BitIO
  import opened Encoding
  import opened Grouping
  import opened SeedStream
  import opened EliasFano
  import opened BijSpec
  import opened BijSolver
  import opened BijMetadata
  import opened BijBlock
  import opened BijDecoder
  import opened BijQuery
  import opened BijPerfect
  import opened BijPayload

  // ---------- The builder's arrays and what they hold ----------

  // What the arrays store for bucket b.
  ghost predicate HeldAt(size: nat, stored: seq<nat>, seeds: seq<nat>, splitSeeds: seq<nat>, splitSeedIdx: seq<int>, b: nat)
    requires b < |seeds| && b < |splitSeedIdx|
  {
    && |stored| == |PartSizes(size)|
    && (size >= SPLIT_THRESHOLD ==>
          && 0 <= splitSeedIdx[b] && splitSeedIdx[b] + 1 < |splitSeeds|
          && splitSeeds[splitSeedIdx[b]] == stored[0] && splitSeeds[splitSeedIdx[b] + 1] == stored[1])
    && (2 <= size < SPLIT_THRESHOLD ==> seeds[b] == stored[0])
  }

  // The first n buckets are solved as specified.
  ghost predicate SolvedTo(buckets: seq<seq<Entry>>, all: seq<seq<nat>>, seeds: seq<nat>, splitSeeds: seq<nat>,
                           splitSeedIdx: seq<int>, list: seq<FallbackEntry>, n: nat) {
    && n <= |buckets| == |seeds| == |splitSeedIdx| && |all| == n
    && (forall b :: 0 <= b < n ==> |all[b]| == |PartSizes(|buckets[b]|)|)
    && (forall b :: 0 <= b < n ==>
          HeldAt(|buckets[b]|, StoredSeeds(all[b], |buckets[b]|), seeds, splitSeeds, splitSeedIdx, b))
    && list == Fallbacks(all, SizesOf(buckets), n)
  }

  lemma {:induction false} FallbacksPrefix(all: seq<seq<nat>>, more: seq<nat>, sizes: seq<nat>, n: nat)
    requires n <= |all| && n <= |sizes| && forall b :: 0 <= b < n ==> |all[b]| == |PartSizes(sizes[b])|
    ensures Fallbacks(all + [more], sizes, n) == Fallbacks(all, sizes, n)
  {
    hide BucketFallbacks, PartSizes;
    if n > 0 {
      FallbacksPrefix(all, more, sizes, n - 1);
    }
  }

  // One bucket more.
  lemma SolvedStep(buckets: seq<seq<Entry>>, all: seq<seq<nat>>, seeds: seq<nat>, splitSeeds: seq<nat>, splitSeedIdx: seq<int>,
                   list: seq<FallbackEntry>, n: nat, seeds': seq<nat>, splitSeeds': seq<nat>, splitSeedIdx': seq<int>, actual: seq<nat>)
    requires SolvedTo(buckets, all, seeds, splitSeeds, splitSeedIdx, list, n) && n < |buckets|
    requires |actual| == |PartSizes(|buckets[n]|)|
    requires |seeds'| == |seeds| && |splitSeedIdx'| == |splitSeedIdx|
    requires forall b :: 0 <= b < n ==> seeds'[b] == seeds[b] && splitSeedIdx'[b] == splitSeedIdx[b]
    requires splitSeeds <= splitSeeds'
    requires HeldAt(|buckets[n]|, StoredSeeds(actual, |buckets[n]|), seeds', splitSeeds', splitSeedIdx', n)
    ensures SolvedTo(buckets, all + [actual], seeds', splitSeeds', splitSeedIdx',
                     list + BucketFallbacks(n, actual, |buckets[n]|, 0), n + 1)
  {
    hide *;
    SolvedToIs(buckets, all, seeds, splitSeeds, splitSeedIdx, list, n);
    var next, sizes := all + [actual], SizesOf(buckets);
    FallbacksPrefix(all, actual, sizes, n);
    FallbacksStep(next, sizes, n);
    forall b | 0 <= b < n + 1
      ensures |next[b]| == |PartSizes(|buckets[b]|)|
      ensures HeldAt(|buckets[b]|, StoredSeeds(next[b], |buckets[b]|), seeds', splitSeeds', splitSeedIdx', b)
    {
      if b < n {
        HeldKept(|buckets[b]|, StoredSeeds(all[b], |buckets[b]|), seeds, splitSeeds, splitSeedIdx, seeds', splitSeeds', splitSeedIdx', b);
      }
    }
    SolvedToFrom(buckets, next, seeds', splitSeeds', splitSeedIdx', list + BucketFallbacks(n, actual, |buckets[n]|, 0), n + 1);
  }

  lemma SolvedToIs(buckets: seq<seq<Entry>>, all: seq<seq<nat>>, seeds: seq<nat>, splitSeeds: seq<nat>, splitSeedIdx: seq<int>,
                   list: seq<FallbackEntry>, n: nat)
    requires SolvedTo(buckets, all, seeds, splitSeeds, splitSeedIdx, list, n)
    ensures n <= |buckets| == |seeds| == |splitSeedIdx| && |all| == n
    ensures forall b :: 0 <= b < n ==> |all[b]| == |PartSizes(|buckets[b]|)| == |PartSizes(SizesOf(buckets)[b])|
    ensures forall b :: 0 <= b < n ==>
              HeldAt(|buckets[b]|, StoredSeeds(all[b], |buckets[b]|), seeds, splitSeeds, splitSeedIdx, b)
    ensures list == Fallbacks(all, SizesOf(buckets), n)
  {
    hide Fallbacks, HeldAt, StoredSeeds, PartSizes;
  }

  lemma SolvedToFrom(buckets: seq<seq<Entry>>, all: seq<seq<nat>>, seeds: seq<nat>, splitSeeds: seq<nat>, splitSeedIdx: seq<int>,
                     list: seq<FallbackEntry>, n: nat)
    requires n <= |buckets| == |seeds| == |splitSeedIdx| && |all| == n
    requires forall b :: 0 <= b < n ==> |all[b]| == |PartSizes(|buckets[b]|)|
    requires forall b :: 0 <= b < n ==>
               HeldAt(|buckets[b]|, StoredSeeds(all[b], |buckets[b]|), seeds, splitSeeds, splitSeedIdx, b)
    requires list == Fallbacks(all, SizesOf(buckets), n)
    ensures SolvedTo(buckets, all, seeds, splitSeeds, splitSeedIdx, list, n)
  {
    hide Fallbacks, HeldAt, StoredSeeds, PartSizes;
  }

  lemma HeldKept(size: nat, stored: seq<nat>, seeds: seq<nat>, splitSeeds: seq<nat>, splitSeedIdx: seq<int>,
                 seeds': seq<nat>, splitSeeds': seq<nat>, splitSeedIdx': seq<int>, b: nat)
    requires b < |seeds| && b < |splitSeedIdx| && b < |seeds'| && b < |splitSeedIdx'|
    requires seeds'[b] == seeds[b] && splitSeedIdx'[b] == splitSeedIdx[b] && splitSeeds <= splitSeeds'
    requires HeldAt(size, stored, seeds, splitSeeds, splitSeedIdx, b)
    ensures HeldAt(size, stored, seeds', splitSeeds', splitSeedIdx', b)
  {
    hide PartSizes;
  }

  lemma FallbacksStep(all: seq<seq<nat>>, sizes: seq<nat>, n: nat)
    requires n < |all| && n < |sizes| && forall b :: 0 <= b <= n ==> |all[b]| == |PartSizes(sizes[b])|
    ensures Fallbacks(all, sizes, n + 1) == Fallbacks(all, sizes, n) + BucketFallbacks(n, all[n], sizes[n], 0)
  {
    hide BucketFallbacks, PartSizes;
  }

  // ---------- One bucket ----------

  lemma SplitSeeds(mix: MixHash, bucket: seq<Entry>, seed0: nat)
    requires |bucket| >= SPLIT_THRESHOLD
    ensures var split := LeastSplit(mix, bucket, 0, SPLIT_BUCKET_MAX_SEED);
            && (split.None? ==> BucketSeeds(mix, bucket) == Err(if HasDuplicate(bucket) then DuplicateKey else SplitBucketSeedSearchFailed))
            && (split == Some(seed0) ==>
                  var part := PartSeed(mix, SecondHalf(mix, bucket, seed0, |bucket|, |bucket| / 2));
                  BucketSeeds(mix, bucket) == if part.Ok? then Ok([seed0, part.value]) else Err(part.error))
  {
    hide LeastSplit, PartSeed, SecondHalf, HasDuplicate;
  }

  lemma SecondHalfSize(mix: MixHash, bucket: seq<Entry>, seed: nat)
    requires LeastSplit(mix, bucket, 0, SPLIT_BUCKET_MAX_SEED) == Some(seed)
    ensures |SecondHalf(mix, bucket, seed, |bucket|, |bucket| / 2)| == |bucket| - |bucket| / 2
  {
    assert Splits(mix, bucket, seed);
    HalvesSize(mix, bucket, seed, |bucket|, |bucket| / 2);
    hide FirstHalf, SecondHalf;
  }

  // The fallback entry of a part, if its seed has no code.
  function PartFallback(b: nat, p: nat, seed: nat, partSize: nat): seq<FallbackEntry> {
    if StoredSeed(seed, partSize) == FALLBACK_MARKER then [FallbackEntry(b, p, seed)] else []
  }

  lemma BucketFallbacksAre(b: nat, seeds: seq<nat>, size: nat)
    requires |seeds| == |PartSizes(size)|
    ensures size >= SPLIT_THRESHOLD ==>
              && |seeds| == 2
              && StoredSeeds(seeds, size) == [StoredSeed(seeds[0], size / 2), StoredSeed(seeds[1], size - size / 2)]
              && BucketFallbacks(b, seeds, size, 0) ==
                 PartFallback(b, 0, seeds[0], size / 2) + PartFallback(b, 1, seeds[1], size - size / 2)
    ensures 2 <= size < SPLIT_THRESHOLD ==>
              && |seeds| == 1
              && StoredSeeds(seeds, size) == [StoredSeed(seeds[0], size)]
              && BucketFallbacks(b, seeds, size, 0) == PartFallback(b, 0, seeds[0], size)
    ensures size <= 1 ==> seeds == [] && BucketFallbacks(b, seeds, size, 0) == []
  {
    hide StoredSeed;
    if size >= SPLIT_THRESHOLD {
      assert BucketFallbacks(b, seeds, size, 2) == [];
      assert BucketFallbacks(b, seeds, size, 1) == PartFallback(b, 1, seeds[1], size - size / 2) + BucketFallbacks(b, seeds, size, 2);
    } else if size >= 2 {
      assert BucketFallbacks(b, seeds, size, 1) == [];
    }
  }

  /** Solves one part of at least two keys: a coded seed, or a marker and its entry
      in the fallback list. */
  method SolvePart(mix: MixHash, part: seq<Entry>, b: nat, p: nat, slots: array<bool>)
    returns (r: Result<nat, Error>, list: seq<FallbackEntry>)
    requires InRange(mix) && 2 <= |part| <= slots.Length && b < 0x1_0000
    modifies slots
    ensures match PartSeed(mix, part)
            case Err(e) => r == Err(e)
            case Ok(seed) => r == Ok(StoredSeed(seed, |part|)) && list == PartFallback(b, p, seed, |part|)
  {
    hide PartSeed, LeastSeed, InRange, MaxEncodableSeed, StoredSeed;
    list := [];
    var needsFallback := |part| > 8;
    if !needsFallback {
      var seed;
      seed, needsFallback := SolveDirectBucket(mix, part, slots);
      DirectIsPartSeed(mix, part, seed, needsFallback);
      if !needsFallback {
        NotMarker(seed);
        return Ok(seed), [];
      }
    }
    var ext := SolveExtended(mix, part, slots);
    if ext.Err? {
      return ext, [];
    }
    if |part| > 8 { StoredIs(ext.value, |part|); }
    return Ok(FALLBACK_MARKER), [FallbackEntry(b, p, ext.value)];
  }

  lemma NotMarker(seed: nat)
    ensures seed < MAX_EXTENDED_SEED ==> seed != FALLBACK_MARKER
  {
  }

  // A bucket's stored seeds and fallback entries.
  ghost predicate BucketSolved(mix: MixHash, bucket: seq<Entry>, b: nat, r: Result<seq<nat>, Error>, list: seq<FallbackEntry>) {
    match BucketSeeds(mix, bucket)
    case Err(e) => r == Err(e)
    case Ok(seeds) => r == Ok(StoredSeeds(seeds, |bucket|)) && list == BucketFallbacks(b, seeds, |bucket|, 0)
  }

  lemma SplitSolved(mix: MixHash, bucket: seq<Entry>, b: nat, seed0: nat, r1: Result<nat, Error>, list1: seq<FallbackEntry>)
    requires |bucket| >= SPLIT_THRESHOLD && LeastSplit(mix, bucket, 0, SPLIT_BUCKET_MAX_SEED) == Some(seed0)
    requires var size1 := |bucket| - |bucket| / 2;
             match PartSeed(mix, SecondHalf(mix, bucket, seed0, |bucket|, |bucket| / 2))
             case Err(e) => r1 == Err(e)
             case Ok(seed) => r1 == Ok(StoredSeed(seed, size1)) && list1 == PartFallback(b, 1, seed, size1)
    ensures var split := |bucket| / 2;
            BucketSolved(mix, bucket, b, if r1.Ok? then Ok([StoredSeed(seed0, split), r1.value]) else Err(r1.error),
                         PartFallback(b, 0, seed0, split) + list1)
  {
    SplitSeeds(mix, bucket, seed0);
    var seeds := BucketSeeds(mix, bucket);
    hide BucketSeeds, LeastSplit, PartSeed, SecondHalf, StoredSeed, PartFallback;
    if seeds.Ok? {
      BucketFallbacksAre(b, seeds.value, |bucket|);
    }
  }

  method SolveSplitBucket(mix: MixHash, bucket: seq<Entry>, b: nat, slots: array<bool>)
    returns (r: Result<seq<nat>, Error>, list: seq<FallbackEntry>)
    requires InRange(mix) && SPLIT_THRESHOLD <= |bucket| <= slots.Length && b < 0x1_0000
    modifies slots
    ensures BucketSolved(mix, bucket, b, r, list)
  {
    hide LeastSplit, PartSeed, SecondHalf, InRange, HasDuplicate, BucketSeeds, StoredSeed, PartFallback, PartSizes, MaxEncodableSeed;
    var splitPoint := |bucket| / 2;
    var found, seed0, sub1 := FindSplit(mix, bucket, slots);
    if !found {
      SplitSeeds(mix, bucket, 0);
      var dup := HasDuplicateMixParts(bucket);
      return Err(if dup then DuplicateKey else SplitBucketSeedSearchFailed), [];
    }
    SecondHalfSize(mix, bucket, seed0);
    var first, r1;
    first := StoreSplitSeed(seed0, splitPoint, b);
    r1, list := SolvePart(mix, sub1, b, 1, slots);
    SplitSolved(mix, bucket, b, seed0, r1, list);
    list := first.1 + list;
    r := if r1.Ok? then Ok([first.0, r1.value]) else Err(r1.error);
  }

  // Golomb-Rice codes the splitting seed only for small halves and small seeds.
  function StoreSplitSeed(seed0: nat, splitPoint: nat, b: nat): (r: (nat, seq<FallbackEntry>))
    ensures seed0 < MAX_EXTENDED_SEED ==> r.0 == StoredSeed(seed0, splitPoint) && r.1 == PartFallback(b, 0, seed0, splitPoint)
  {
    hide MaxEncodableSeed;
    if splitPoint > 8 || seed0 >= MaxEncodableSeed(splitPoint) then (FALLBACK_MARKER, [FallbackEntry(b, 0, seed0)])
    else (seed0, [])
  }

  method SolveBucket(mix: MixHash, bucket: seq<Entry>, b: nat, slots: array<bool>)
    returns (r: Result<seq<nat>, Error>, list: seq<FallbackEntry>)
    requires InRange(mix) && |bucket| <= slots.Length && b < 0x1_0000
    modifies slots
    ensures BucketSolved(mix, bucket, b, r, list)
  {
    var size := |bucket|;
    if size <= 1 {
      BucketFallbacksAre(b, [], size);
      assert StoredSeeds([], size) == [];
      return Ok([]), [];
    }
    if size >= SPLIT_THRESHOLD {
      r, list := SolveSplitBucket(mix, bucket, b, slots);
    } else {
      var seed;
      seed, list := SolvePart(mix, bucket, b, 0, slots);
      if PartSeed(mix, bucket).Ok? { BucketFallbacksAre(b, [PartSeed(mix, bucket).value], size); }
      hide PartSeed, StoredSeed, PartFallback, BucketFallbacks, StoredSeeds;
      r := if seed.Ok? then Ok([seed.value]) else Err(seed.error);
    }
  }

  lemma BucketSolvedIs(mix: MixHash, bucket: seq<Entry>, b: nat, r: Result<seq<nat>, Error>, list: seq<FallbackEntry>)
    requires BucketSolved(mix, bucket, b, r, list)
    ensures var seeds := BucketSeeds(mix, bucket);
            && (seeds.Err? ==> r == Err(seeds.error))
            && (seeds.Ok? ==>
                  && |seeds.value| == |PartSizes(|bucket|)|
                  && r == Ok(StoredSeeds(seeds.value, |bucket|)) && list == BucketFallbacks(b, seeds.value, |bucket|, 0))
  {
    hide BucketFallbacks, StoredSeeds;
  }

  lemma SolvedNothing(mix: MixHash, buckets: seq<seq<Entry>>, seeds: seq<nat>, splitSeedIdx: seq<int>)
    requires |buckets| == |seeds| == |splitSeedIdx|
    ensures BlockSeeds(mix, buckets, 0) == Ok([])
    ensures SolvedTo(buckets, [], seeds, [], splitSeedIdx, [], 0)
  {
  }

  // ---------- Encoding ----------

  // The stored seeds of bucket b, from the arrays.
  function StoredIn(size: nat, seeds: seq<nat>, splitSeeds: seq<nat>, splitSeedIdx: seq<int>, b: nat): seq<nat>
    requires b < |seeds| && b < |splitSeedIdx|
    requires size >= SPLIT_THRESHOLD ==> 0 <= splitSeedIdx[b] && splitSeedIdx[b] + 1 < |splitSeeds|
  {
    if size >= SPLIT_THRESHOLD then [splitSeeds[splitSeedIdx[b]], splitSeeds[splitSeedIdx[b] + 1]]
    else if size >= 2 then [seeds[b]]
    else []
  }

  lemma HeldIs(size: nat, stored: seq<nat>, seeds: seq<nat>, splitSeeds: seq<nat>, splitSeedIdx: seq<int>, b: nat)
    requires b < |seeds| && b < |splitSeedIdx| && HeldAt(size, stored, seeds, splitSeeds, splitSeedIdx, b)
    ensures size >= SPLIT_THRESHOLD ==> 0 <= splitSeedIdx[b] && splitSeedIdx[b] + 1 < |splitSeeds|
    ensures |stored| == |PartSizes(size)| && stored == StoredIn(size, seeds, splitSeeds, splitSeedIdx, b)
  {
  }

  // Stored seeds fit in 32 bits.
  ghost predicate Narrow(stored: seq<nat>) {
    forall p :: 0 <= p < |stored| ==> stored[p] < 0x1_0000_0000
  }

  lemma StoredNarrow(seeds: seq<nat>, size: nat)
    requires SeedsFit(seeds, size)
    ensures Narrow(StoredSeeds(seeds, size))
  {
    hide HasCode, MaxEncodableSeed;
  }

  method EncodeBucket(bw: BitWriter, size: nat, stored: seq<nat>)
    requires bw.Valid() && |stored| == |PartSizes(size)| && Narrow(stored)
    modifies bw
    ensures bw.Valid() && bw.written == old(bw.written) + BucketCode(stored, size)
  {
    hide StoredCode, BitWriter.Valid;
    ghost var before := bw.written;
    if size <= 1 {
      assert before + [] == before;
      return;
    }
    if size >= SPLIT_THRESHOLD {
      EncodeStored(bw, stored[0], size / 2);
      EncodeStored(bw, stored[1], size - size / 2);
      assert bw.written == before + (StoredCode(stored[0], size / 2) + StoredCode(stored[1], size - size / 2));
    } else {
      EncodeStored(bw, stored[0], size);
    }
  }

  // The builder's arrays hold block B.
  ghost predicate Keeps(B: Block, buckets: seq<seq<Entry>>, seeds: seq<nat>, splitSeeds: seq<nat>, splitSeedIdx: seq<int>,
                        list: seq<FallbackEntry>) {
    B.Shaped() && B.sizes == SizesOf(buckets) && |buckets| == NUM_BUCKETS
    && SolvedTo(buckets, B.seeds, seeds, splitSeeds, splitSeedIdx, list, NUM_BUCKETS)
  }

  lemma KeepsFacts(B: Block, buckets: seq<seq<Entry>>, seeds: seq<nat>, splitSeeds: seq<nat>, splitSeedIdx: seq<int>,
                   list: seq<FallbackEntry>)
    requires Keeps(B, buckets, seeds, splitSeeds, splitSeedIdx, list)
    ensures B.Shaped() && |B.sizes| == |buckets| == |seeds| == |splitSeedIdx| == |B.StoredAll()| == NUM_BUCKETS == 1024
    ensures B.sizes == SizesOf(buckets) && list == B.List() && Matches(B.sizes, B.StoredAll())
  {
    hide Fallbacks, HeldAt, StoredSeeds, SeedsFit;
  }

  lemma KeepsAt(B: Block, buckets: seq<seq<Entry>>, seeds: seq<nat>, splitSeeds: seq<nat>, splitSeedIdx: seq<int>,
                list: seq<FallbackEntry>, b: nat)
    requires Keeps(B, buckets, seeds, splitSeeds, splitSeedIdx, list) && b < NUM_BUCKETS
    ensures B.Shaped() && b < |seeds| && b < |splitSeedIdx| && b < |B.sizes| && b < |B.StoredAll()|
    ensures B.sizes[b] >= SPLIT_THRESHOLD ==> 0 <= splitSeedIdx[b] && splitSeedIdx[b] + 1 < |splitSeeds|
    ensures StoredIn(B.sizes[b], seeds, splitSeeds, splitSeedIdx, b) == B.StoredAll()[b]
    ensures |B.StoredAll()[b]| == |PartSizes(B.sizes[b])| && Narrow(B.StoredAll()[b])
  {
    hide Fallbacks, StoredSeeds, PartSizes;
    assert SeedsFit(B.seeds[b], B.sizes[b]);
    StoredNarrow(B.seeds[b], B.sizes[b]);
    HeldIs(B.sizes[b], StoredSeeds(B.seeds[b], B.sizes[b]), seeds, splitSeeds, splitSeedIdx, b);
  }

  lemma PositionFits(B: Block, b: nat)
    requires B.Shaped() && b <= |B.sizes| == 1024
    ensures B.SeedCheckpoint(b) == |Codes(B.sizes, B.StoredAll(), b)| < 0x1_0000
  {
    CodesLength(B.sizes, B.StoredAll(), b);
    hide Codes;
  }

  lemma EFPositionFits(B: Block, b: nat)
    requires B.Shaped() && 0 < b <= |B.sizes| == NUM_BUCKETS && B.Total() <= 0xFFFF
    ensures B.EFCheckpoint(b) == b + Shifted(Cumulative(B.sizes)[b - 1], ComputeEFLowBits(NUM_BUCKETS, B.Total())) < 0x1_0000
    ensures ComputeEFLowBits(NUM_BUCKETS, B.Total()) <= 5
  {
    EFBounds(B.Total());
    CumulativeFacts(B.sizes);
    ShiftedMonotone(B.Cum()[b - 1], B.Total(), B.LowBits());
    hide Shifted, ComputeEFLowBits, Cumulative, EliasFanoSize, TotalBits;
  }

  // Seven positions, each at the start of a segment.
  ghost predicate SeedPositions(B: Block, positions: seq<nat>)
    requires B.Shaped() && |B.sizes| == NUM_BUCKETS
  {
    |positions| == NUM_CHECKPOINTS
    && forall i :: 0 <= i < NUM_CHECKPOINTS ==> positions[i] == B.SeedCheckpoint((i + 1) * CHECKPOINT_INTERVAL)
  }

  ghost predicate EFPositions(B: Block, positions: seq<nat>)
    requires |B.sizes| == NUM_BUCKETS
  {
    |positions| == NUM_CHECKPOINTS
    && forall i :: 0 <= i < NUM_CHECKPOINTS ==> positions[i] == B.EFCheckpoint((i + 1) * CHECKPOINT_INTERVAL)
  }

  lemma PositionsAre(B: Block, efs: seq<nat>, seedPositions: seq<nat>)
    requires B.Valid() && EFPositions(B, efs) && SeedPositions(B, seedPositions)
    ensures Uint16s(efs) + Uint16s(seedPositions) == B.Checkpoints()
  {
    hide Uint16s, Block.EFCheckpoint, Block.SeedCheckpoint, Block.List, Sum;
    assert efs == B.EFAll() && seedPositions == B.SeedAll();
  }

  // Flushed codes are the seed section.
  lemma FlushedIsSeedStream(B: Block, out: seq<Byte>, written: seq<bool>)
    requires B.Shaped() && written == B.SeedBits()
    requires |out| == (|written| + 7) / 8 && |Stream(out)| >= |written|
    requires Stream(out)[..|written|] == written
    requires forall i :: |written| <= i < 8 * |out| ==> !Stream(out)[i]
    ensures B.IsSeedStream(out)
  {
    hide ByteBits, Codes;
    forall p | 0 <= p < |written| ensures StreamBit(out, 0 + p) == written[p] {
      assert Stream(out)[..|written|][p] == Stream(out)[p];
    }
    forall p | |written| <= p < 8 * |out| ensures !StreamBit(out, p) {
      assert !Stream(out)[p];
    }
  }

  // ---------- The fallback list ----------

  ghost predicate ListWritten(buf: seq<Byte>, list: seq<FallbackEntry>, i: nat)
    requires i <= |list| <= MAX_FALLBACK_ENTRIES
  {
    && |buf| == 2 + 4 * |list|
    && buf[..1 + 4 * i] == [|list|] + EntriesBytes(list[..i])
  }

  lemma ListSteps(before: seq<Byte>, after: seq<Byte>, list: seq<FallbackEntry>, i: nat)
    requires i < |list| <= MAX_FALLBACK_ENTRIES && ListWritten(before, list, i)
    requires Encoding.Stored(before, after, 1 + 4 * i, PutLE(PackEntry(list[i]), 4))
    ensures ListWritten(after, list, i + 1)
  {
    assert list[..i + 1][..i] == list[..i];
    assert EntriesBytes(list[..i + 1]) == EntriesBytes(list[..i]) + PutLE(PackEntry(list[i]), 4);
    hide PutLE, PackEntry, EntriesBytes, Encoding.Stored;
    assert before[0..1 + 4 * i] == before[..1 + 4 * i];
    StoredAppends(before, after, 0, 1 + 4 * i, before[..1 + 4 * i], PutLE(PackEntry(list[i]), 4));
    StoredLength(before, after, 1 + 4 * i, PutLE(PackEntry(list[i]), 4));
    assert after[..1 + 4 * (i + 1)] == after[0..1 + 4 * i + 4];
  }

  // Count, packed entries, validation byte.
  method EncodeFallbackList(list: seq<FallbackEntry>) returns (b: array<Byte>)
    requires |list| <= MAX_FALLBACK_ENTRIES
    ensures fresh(b) && b[..] == FallbackBytes(list)
  {
    b := new Byte[2 + |list| * COMPACT_FALLBACK_ENTRY_SIZE];
    var count: Byte := |list|;
    b[0] := count;
    assert list[..0] == [];
    hide PackEntry, Check, PutLE, Encoding.Stored;
    for i := 0 to |list|
      invariant ListWritten(b[..], list, i)
    {
      ghost var before := b[..];
      WriteField(b, 1 + i * COMPACT_FALLBACK_ENTRY_SIZE, PackEntry(list[i]), COMPACT_FALLBACK_ENTRY_SIZE);
      hide ListWritten;
      ListSteps(before, b[..], list, i);
    }
    ghost var front := b[..b.Length - 1];
    b[b.Length - 1] := Check(count);
    assert list[..|list|] == list;
    assert b[..] == front + [Check(count)];
  }

  // ---------- Putting it together ----------

  const MAX_METADATA := 8220

  // An upper bound on a block's metadata, known before it is built.
  function EstimateMetadataSize(numKeys: nat): nat {
    if numKeys == 0 then CHECKPOINTS_SIZE + NUM_BUCKETS / 8 + 1 else MAX_METADATA
  }

  lemma AssembledIs(B: Block, metadata: seq<Byte>, efs: seq<nat>, seedPositions: seq<nat>, ef: seq<Byte>, ss: seq<Byte>)
    requires B.Shaped() && |B.sizes| == NUM_BUCKETS && 0 < B.Total() <= 0xFFFF && |B.List()| <= MAX_FALLBACK_ENTRIES
    requires EFPositions(B, efs) && SeedPositions(B, seedPositions) && B.IsEF(ef) && B.IsSeedStream(ss)
    requires metadata == Uint16s(efs) + Uint16s(seedPositions) + ef + ss + FallbackBytes(B.List())
    ensures B.IsMetadata(metadata) && |metadata| <= MAX_METADATA
  {
    assert B.Valid();
    PositionsAre(B, efs, seedPositions);
    hide Block.Shaped, Block.IsEF, Block.IsSeedStream, Block.List, FallbackBytes, EFPositions, SeedPositions, Uint16s, Block.Checkpoints;
    assert B.Layout(metadata, ef, ss);
    MetadataSize(B, metadata);
  }

  // One section behind another.
  lemma SectionStored(before: seq<Byte>, after: seq<Byte>, done: seq<Byte>, section: seq<Byte>)
    requires |done| <= |before| && before[..|done|] == done && Stored(before, after, |done|, section)
    ensures |after| == |before| >= |done + section| && after[..|done + section|] == done + section
  {
    StoredAppends(before, after, 0, |done|, done, section);
    StoredLength(before, after, |done|, section);
  }

  method AppendSection(dst: array<Byte>, ghost done: seq<Byte>, offset: nat, section: seq<Byte>)
    requires offset == |done| && |done| + |section| <= dst.Length && dst[..|done|] == done
    modifies dst
    ensures dst[..|done| + |section|] == done + section
  {
    ghost var before := dst[..];
    assert before[..|done|] == done;
    Store(dst, offset, section);
    SectionStored(before, dst[..], done, section);
    hide Stored;
  }

  lemma StoredSeedOr(B: Block, b: nat, p: nat, stored: nat, seed: nat)
    requires B.Valid() && b < |B.sizes| && B.Shaped() && b < |B.StoredAll()| && p < |B.StoredAll()[b]|
    requires stored == B.StoredAll()[b][p]
    requires stored != FALLBACK_MARKER ==> seed == stored
    requires stored == FALLBACK_MARKER ==> FoundFor(B.List(), b, p, seed)
    ensures b < |B.seeds| && p < |B.seeds[b]| && seed == B.seeds[b][p]
  {
    ListRecovers(B, b);
    hide Block.Valid, Block.Shaped, FoundFor, Block.List, StoredSeeds;
    RecoversAt(B.List(), b, B.StoredAll()[b], B.seeds[b], p, seed);
  }

  // Looks a marked seed up in the builder's own list.
  method ResolveFallbackSeed(list: seq<FallbackEntry>, b: nat, p: nat) returns (found: bool, seed: nat)
    requires b < 0x1_0000
    ensures found ==> FallbackEntry(b, p, seed) in list
    ensures !found ==> forall e :: e in list ==> !(e.bucketIndex == b && e.subBucket == p)
  {
    for i := 0 to |list|
      invariant forall k :: 0 <= k < i ==> !(list[k].bucketIndex == b && list[k].subBucket == p)
    {
      if list[i].bucketIndex == b && list[i].subBucket == p {
        return true, list[i].seed;
      }
    }
    return false, 0;
  }

  lemma CountsBounded(g: Geometry, entries: seq<Entry>)
    requires g.Valid() && |entries| <= 0xFFFF
    ensures forall i :: 0 <= i < NUM_BUCKETS ==> Cumulative(SizesOf(g.Buckets(entries)))[i] <= 0xFFFF
  {
    TotalKeys(g, entries);
    CumulativeFacts(SizesOf(g.Buckets(entries)));
    hide Sum, Cumulative;
  }

  // The next running total, in 16 bits.
  lemma CountStep(buckets: seq<seq<Entry>>, i: nat, total: nat)
    requires i < |buckets| && Cumulative(SizesOf(buckets))[i] <= 0xFFFF
    requires total == if i == 0 then 0 else Cumulative(SizesOf(buckets))[i - 1]
    ensures U16(total + U16(|buckets[i]|)) == Cumulative(SizesOf(buckets))[i]
  {
    var sizes := SizesOf(buckets);
    assert Sum(sizes, i + 1) == Sum(sizes, i) + sizes[i];
    assert i == 0 ==> Sum(sizes, i) == 0;
    hide Sum;
  }

  // Metadata length, payload length, number of keys.
  datatype Built = Built(metadataLen: nat, payloadsLen: nat, numKeys: nat)

  function ZeroSizes(): (r: seq<nat>)
    ensures |r| == NUM_BUCKETS && forall i :: 0 <= i < NUM_BUCKETS ==> r[i] == 0
  {
    seq(NUM_BUCKETS, _ => 0)
  }

  // The metadata of an empty block: zero checkpoints, the code of all-zero sizes, and
  // one zero byte.
  ghost predicate IsEmptyMetadata(metadata: seq<Byte>) {
    && |metadata| == EstimateMetadataSize(0) == 157
    && (forall k :: 0 <= k < CHECKPOINTS_SIZE ==> metadata[k] == 0)
    && Coded(metadata[28..156], ZeroSizes(), 0, NUM_BUCKETS)
    && metadata[156] == 0
  }

  lemma OnesCodeZeros(ef: seq<Byte>)
    requires |ef| == 128 && forall p: nat :: p < 1024 ==> StreamBit(ef, p)
    ensures Coded(ef, ZeroSizes(), 0, NUM_BUCKETS)
  {
    var cum := ZeroSizes();
    hide ByteBits;
    assert Times(|cum|, 0) == 0;
    forall p: nat | p < 8 * |ef| ensures Marked(cum, 0, NUM_BUCKETS, p) {
      assert MarkPos(cum, 0, p) == p;
    }
  }

  method BuildEmptyMetadataInto(dst: array<Byte>) returns (n: nat)
    requires EstimateMetadataSize(0) <= dst.Length
    modifies dst
    ensures n == EstimateMetadataSize(0) && IsEmptyMetadata(dst[..n])
  {
    for i := 0 to 157
      invariant forall k :: 0 <= k < i ==> dst[k] == 0
    {
      dst[i] := 0;
    }
    var ef := new Byte[128](_ => 0);
    hide StreamBit;
    for i := 0 to 1024
      invariant forall p: nat :: p < i ==> StreamBit(ef[..], p)
      invariant forall k :: 0 <= k < 157 ==> dst[k] == 0
    {
      SetBit(ef, i);
    }
    OnesCodeZeros(ef[..]);
    ghost var code := ef[..];
    hide Coded;
    for i := 0 to 128
      invariant ef[..] == code
      invariant forall k :: 0 <= k < 28 ==> dst[k] == 0
      invariant forall k :: 0 <= k < i ==> dst[28 + k] == ef[k]
      invariant dst[156] == 0
    {
      dst[28 + i] := ef[i];
    }
    assert dst[..157][28..156] == code;
    n := 157;
  }

  // ---------- The builder ----------

  class Builder {
    const g: Geometry
    const maxKeysPerBlock: nat
    const fingerprintSize: nat
    const payloadSize: nat
    const seedEncoder: BitWriter

    var buckets: seq<seq<Entry>>
    var keysInBlock: nat
    var bucketSizes: seq<nat>
    var cumulative: seq<nat>
    var seeds: seq<nat>
    var splitSeeds: seq<nat>
    var splitSeedIdx: seq<int>
    var fallbackList: seq<FallbackEntry>
    var slots: array<bool>

    // The keys of the current block in the order they were added.
    ghost var added: seq<Entry>

    ghost predicate Grouped()
      reads `buckets, `keysInBlock, `added
    {
      && g.Valid() && maxKeysPerBlock <= MAX_UINT16
      && buckets == g.Buckets(added) && keysInBlock == |added|
    }

    ghost predicate Valid()
      reads `buckets, `keysInBlock, `added, `seeds, `splitSeedIdx
    {
      Grouped() && |seeds| == NUM_BUCKETS == |splitSeedIdx|
    }

    lemma GroupedIs()
      requires Grouped()
      ensures g.Valid() && InRange(g.mix) && NUM_BUCKETS == 1024 && maxKeysPerBlock <= 0xFFFF
      ensures |buckets| == NUM_BUCKETS && buckets == g.Buckets(added) && keysInBlock == |added|
      ensures Seeds(g, added) == BlockSeeds(g.mix, buckets, |buckets|)
    {
      hide BlockSeeds;
    }

    lemma ValidIs()
      ensures Valid() <==> Grouped() && |seeds| == NUM_BUCKETS == |splitSeedIdx|
    {
    }

    constructor (g: Geometry, maxKeysPerBlock: nat, fingerprintSize: nat, payloadSize: nat)
      requires g.Valid() && maxKeysPerBlock <= MAX_UINT16
      ensures Valid() && added == [] && this.g == g && this.maxKeysPerBlock == maxKeysPerBlock
      ensures this.fingerprintSize == fingerprintSize && this.payloadSize == payloadSize
      ensures fresh(seedEncoder) && fresh(slots)
    {
      this.g, this.maxKeysPerBlock, this.fingerprintSize, this.payloadSize := g, maxKeysPerBlock, fingerprintSize, payloadSize;
      seedEncoder := new BitWriter();
      buckets, keysInBlock := seq(NUM_BUCKETS, _ => []), 0;
      bucketSizes, cumulative := seq(NUM_BUCKETS, _ => 0), seq(NUM_BUCKETS, _ => 0);
      seeds, splitSeeds, splitSeedIdx := seq(NUM_BUCKETS, _ => 0), [], seq(NUM_BUCKETS, _ => -1);
      fallbackList := [];
      slots := new bool[256];
      added := [];
    }

    method AddKey(k0: bv64, k1: bv64, payload: nat, fingerprint: nat)
      requires Valid()
      modifies `buckets, `keysInBlock, `added
      ensures Valid() && added == old(added) + [Entry(g.PartsOf(k0, k1), payload, fingerprint)]
    {
      hide *;
      var e := Entry(g.PartsOf(k0, k1), payload, fingerprint);
      var b := g.bucketOf(k0);
      ValidIs();
      GroupedIs();
      BucketOfKey(g, k0, k1, payload, fingerprint);
      BucketsAppend(g, added, e);
      buckets := buckets[b := buckets[b] + [e]];
      keysInBlock := keysInBlock + 1;
      added := added + [e];
      StaysGrouped();
      ValidIs();
    }

    lemma StaysGrouped()
      requires g.Valid() && maxKeysPerBlock <= 0xFFFF && buckets == g.Buckets(added) && keysInBlock == |added|
      ensures Grouped()
    {
    }

    method Reset()
      requires Valid()
      modifies `buckets, `keysInBlock, `added, `bucketSizes, `cumulative, `seeds, `splitSeeds, `splitSeedIdx, `fallbackList
      ensures Valid() && added == []
    {
      buckets := seq(NUM_BUCKETS, _ => []);
      splitSeedIdx := seq(NUM_BUCKETS, _ => -1);
      bucketSizes, cumulative, seeds := seq(NUM_BUCKETS, _ => 0), seq(NUM_BUCKETS, _ => 0), seq(NUM_BUCKETS, _ => 0);
      splitSeeds, fallbackList := [], [];
      keysInBlock := 0;
      added := [];
    }

    // Sizes and running totals; below the key limit no uint16 wraps.
    method ComputeCumulativeCounts()
      requires Valid() && keysInBlock <= 0xFFFF
      modifies `bucketSizes, `cumulative
      ensures bucketSizes == SizesOf(buckets) && cumulative == Cumulative(SizesOf(buckets))
    {
      hide *;
      ValidIs();
      GroupedIs();
      CountsBounded(g, added);
      var total := 0;
      bucketSizes, cumulative := [], [];
      for i := 0 to |buckets|
        invariant |bucketSizes| == |cumulative| == i && total == if i == 0 then 0 else cumulative[i - 1]
        invariant forall k :: 0 <= k < i ==> bucketSizes[k] == |buckets[k]| && cumulative[k] == Cumulative(SizesOf(buckets))[k]
      {
        CountStep(buckets, i, total);
        bucketSizes := bucketSizes + [|buckets[i]|];
        total := U16(total + U16(|buckets[i]|));
        cumulative := cumulative + [total];
      }
      assert bucketSizes == SizesOf(buckets) && cumulative == Cumulative(SizesOf(buckets));
    }

    method GrowSlots(size: nat)
      modifies `slots
      ensures size <= slots.Length && (slots == old(slots) || fresh(slots))
    {
      if slots.Length < size {
        slots := new bool[2 * size];
      }
    }

    // Puts a bucket's stored seeds where the encoder looks for them.
    method KeepSeeds(b: nat, stored: seq<nat>)
      requires b < |seeds| == |splitSeedIdx| && b < |buckets| && |stored| == |PartSizes(|buckets[b]|)|
      modifies `seeds, `splitSeeds, `splitSeedIdx
      ensures |seeds| == |old(seeds)| && |splitSeedIdx| == |old(splitSeedIdx)| && old(splitSeeds) <= splitSeeds
      ensures forall c :: 0 <= c < |seeds| && c != b ==> seeds[c] == old(seeds[c]) && splitSeedIdx[c] == old(splitSeedIdx[c])
      ensures HeldAt(|buckets[b]|, stored, seeds, splitSeeds, splitSeedIdx, b)
    {
      var size := |buckets[b]|;
      if size <= 1 {
        seeds := seeds[b := 0];
      } else if size >= SPLIT_THRESHOLD {
        splitSeedIdx := splitSeedIdx[b := |splitSeeds|];
        splitSeeds := splitSeeds + stored;
      } else {
        seeds := seeds[b := stored[0]];
      }
    }

    /** Solves every bucket in order; the first bucket without seeds decides the error. */
    method SolveBijections() returns (err: Option<Error>, ghost all: seq<seq<nat>>)
      requires Valid()
      modifies `seeds, `splitSeeds, `splitSeedIdx, `fallbackList, `slots, slots
      ensures Valid() && (slots == old(slots) || fresh(slots))
      ensures match Seeds(g, added)
              case Err(e) => err == Some(e)
              case Ok(found) => err == None && all == found
                                && SolvedTo(buckets, all, seeds, splitSeeds, splitSeedIdx, fallbackList, NUM_BUCKETS)
    {
      hide *;
      ValidIs();
      GroupedIs();
      splitSeeds, fallbackList := [], [];
      splitSeedIdx := seq(|splitSeedIdx|, _ => -1);
      all := [];
      SolvedNothing(g.mix, buckets, seeds, splitSeedIdx);
      for b := 0 to |buckets|
        invariant |seeds| == NUM_BUCKETS == |splitSeedIdx| && (slots == old(slots) || fresh(slots))
        invariant BlockSeeds(g.mix, buckets, b) == Ok(all)
        invariant SolvedTo(buckets, all, seeds, splitSeeds, splitSeedIdx, fallbackList, b)
      {
        GrowSlots(|buckets[b]|);
        var r, list := SolveBucket(g.mix, buckets[b], b, slots);
        BlockSeedsStep(g.mix, buckets, b);
        BucketSolvedIs(g.mix, buckets[b], b, r, list);
        if r.Err? {
          BlockSeedsFail(g.mix, buckets, b + 1, |buckets|);
          ValidIs();
          return Some(r.error), all;
        }
        ghost var actual := BucketSeeds(g.mix, buckets[b]).value;
        ghost var s, ss, si := seeds, splitSeeds, splitSeedIdx;
        KeepSeeds(b, r.value);
        SolvedStep(buckets, all, s, ss, si, fallbackList, b, seeds, splitSeeds, splitSeedIdx, actual);
        fallbackList := fallbackList + list;
        all := all + [actual];
      }
      ValidIs();
      return None, all;
    }

    // ---------- Sections ----------

    /** Writes all codes and notes where each later segment starts.  The positions
        always fit in 16 bits, so the overflow error is never reported. */
    method EncodeSeedsWithCheckpoints(ghost B: Block) returns (overflow: bool, positions: seq<nat>)
      requires Keeps(B, buckets, seeds, splitSeeds, splitSeedIdx, fallbackList) && bucketSizes == B.sizes
      requires seedEncoder.Valid() && seedEncoder.written == []
      modifies seedEncoder
      ensures seedEncoder.Valid() && B.Shaped() && seedEncoder.written == B.SeedBits()
      ensures !overflow && |B.sizes| == NUM_BUCKETS && SeedPositions(B, positions)
    {
      hide *;
      KeepsFacts(B, buckets, seeds, splitSeeds, splitSeedIdx, fallbackList);
      SegmentConstants();
      StreamBegins(B);
      positions := [];
      for b := 0 to |bucketSizes|
        invariant seedEncoder.Valid() && seedEncoder.written == Codes(B.sizes, B.StoredAll(), b)
        invariant |positions| == if b == 0 then 0 else (b - 1) / 128
        invariant forall i :: 0 <= i < |positions| ==> positions[i] == B.SeedCheckpoint((i + 1) * 128)
      {
        if b > 0 && b % 128 == 0 && |positions| < 7 {
          PositionFits(B, b);
          var seedBitPos := seedEncoder.BitsWritten();
          if seedBitPos > 0xFFFF {
            return true, positions;
          }
          positions := positions + [seedBitPos % 0x1_0000];
        }
        KeepsAt(B, buckets, seeds, splitSeeds, splitSeedIdx, fallbackList, b);
        CodesStep(B.sizes, B.StoredAll(), b);
        EncodeBucket(seedEncoder, bucketSizes[b], StoredIn(bucketSizes[b], seeds, splitSeeds, splitSeedIdx, b));
      }
      overflow := false;
      SeedPositionsIs(B, positions);
    }

    lemma SeedPositionsIs(B: Block, positions: seq<nat>)
      requires B.Shaped() && |B.sizes| == NUM_BUCKETS && |positions| == 7
      requires forall i :: 0 <= i < 7 ==> positions[i] == B.SeedCheckpoint((i + 1) * 128)
      ensures SeedPositions(B, positions)
    {
      hide Block.SeedCheckpoint;
    }

    /** The Elias-Fano section and where each later segment's marks start; again no
        position overflows. */
    method EncodeEFWithCheckpoints(ghost B: Block) returns (overflow: bool, efData: seq<Byte>, positions: seq<nat>)
      requires B.Shaped() && |B.sizes| == NUM_BUCKETS && 0 < B.Total() <= 0xFFFF
      requires cumulative == Cumulative(B.sizes) && keysInBlock == B.Total()
      ensures !overflow && B.IsEF(efData) && EFPositions(B, positions)
    {
      hide *;
      CumulativeFacts(B.sizes);
      SegmentConstants();
      EFIs(B);
      var buf := EncodeEliasFanoInto(cumulative, keysInBlock);
      efData := buf[..];
      EFSection(B, efData);
      var lowBits := ComputeEFLowBits(NUM_BUCKETS, keysInBlock);
      positions := [];
      for i := 0 to 7
        invariant |positions| == i
        invariant forall k :: 0 <= k < i ==> positions[k] == B.EFCheckpoint((k + 1) * 128)
      {
        var bucketIdx := (i + 1) * 128;
        EFPositionFits(B, bucketIdx);
        var bitPos := bucketIdx + Shifted(cumulative[bucketIdx - 1], lowBits);
        if bitPos > 0xFFFF {
          return true, efData, positions;
        }
        positions := positions + [bitPos % 0x1_0000];
      }
      overflow := false;
      EFPositionsIs(B, positions);
    }

    lemma EFIs(B: Block)
      ensures B.Total() == Sum(B.sizes, |B.sizes|) && B.Cum() == Cumulative(B.sizes)
      ensures B.LowBits() == ComputeEFLowBits(NUM_BUCKETS, B.Total())
      ensures B.Total() <= 0xFFFF ==> B.LowBits() <= 5
    {
      if B.Total() <= 0xFFFF { EFBounds(B.Total()); }
      hide Sum, ComputeEFLowBits, TotalBits, EliasFanoSize, Shifted;
    }

    lemma EFSection(B: Block, ef: seq<Byte>)
      requires |B.sizes| == NUM_BUCKETS && |ef| == EliasFanoSize(NUM_BUCKETS, B.Total())
      requires Coded(ef, B.Cum(), B.LowBits(), |B.sizes|) && Encodes(ef, B.Cum(), B.LowBits())
      ensures B.IsEF(ef)
    {
      hide Coded, Encodes, EliasFanoSize;
    }

    lemma EFPositionsIs(B: Block, positions: seq<nat>)
      requires |B.sizes| == NUM_BUCKETS && |positions| == 7
      requires forall i :: 0 <= i < 7 ==> positions[i] == B.EFCheckpoint((i + 1) * 128)
      ensures EFPositions(B, positions)
    {
      hide Block.EFCheckpoint;
    }

    lemma SegmentConstants()
      ensures NUM_CHECKPOINTS == 7 && CHECKPOINT_INTERVAL == 128 && NUM_BUCKETS == 1024
    {
    }

    lemma StreamBegins(B: Block)
      requires B.Shaped()
      ensures Codes(B.sizes, B.StoredAll(), 0) == [] && B.SeedBits() == Codes(B.sizes, B.StoredAll(), |B.sizes|)
    {
      hide StoredSeeds;
    }

    // The solved block is in the builder's fields.
    ghost predicate Ready(B: Block)
      reads `buckets, `keysInBlock, `bucketSizes, `cumulative, `seeds, `splitSeeds, `splitSeedIdx, `fallbackList
    {
      && Keeps(B, buckets, seeds, splitSeeds, splitSeedIdx, fallbackList)
      && bucketSizes == B.sizes && cumulative == Cumulative(B.sizes)
      && 0 < B.Total() <= 0xFFFF && keysInBlock == B.Total()
    }

    lemma ReadyFacts(B: Block)
      requires Ready(B)
      ensures Keeps(B, buckets, seeds, splitSeeds, splitSeedIdx, fallbackList) && bucketSizes == B.sizes
      ensures cumulative == Cumulative(B.sizes) && keysInBlock == B.Total() && 0 < B.Total() <= 0xFFFF
      ensures B.Shaped() && |B.sizes| == NUM_BUCKETS && fallbackList == B.List() && CHECKPOINTS_SIZE == 28
      ensures MAX_FALLBACK_ENTRIES == 255 && MAX_METADATA == 8220
    {
      KeepsFacts(B, buckets, seeds, splitSeeds, splitSeedIdx, fallbackList);
      hide Keeps, Block.Shaped, Cumulative, Block.List;
    }

    /** Checkpoints, Elias-Fano data, seed stream and fallback list, one behind the
        other.  Only an overlong fallback list is an error; neither a position
        overflow nor a short buffer can happen. */
    method EncodeSeparatedMetadataInto(dst: array<Byte>, ghost B: Block) returns (r: Result<nat, Error>)
      requires Ready(B) && 8220 <= dst.Length
      modifies seedEncoder, dst
      ensures |fallbackList| > 255 ==> r == Err(BlockOverflow)
      ensures |fallbackList| <= 255 ==> r.Ok? && r.value <= dst.Length && B.IsMetadata(dst[..r.value])
    {
      hide *;
      ReadyFacts(B);
      var overflow, efData, efs := EncodeEFWithCheckpoints(B);
      if overflow {
        return Err(PositionOverflow);
      }
      seedEncoder.Reset();
      var seedPositions;
      overflow, seedPositions := EncodeSeedsWithCheckpoints(B);
      if overflow {
        return Err(PositionOverflow);
      }
      ghost var written := seedEncoder.written;
      var seedStreamData := seedEncoder.Flush();
      FlushedIsSeedStream(B, seedStreamData, written);
      if |fallbackList| > MAX_FALLBACK_ENTRIES {
        return Err(BlockOverflow);
      }
      var fallbackData := EncodeFallbackList(fallbackList);
      r := Assemble(dst, efs, seedPositions, efData, seedStreamData, fallbackData[..], B);
    }

    method Assemble(dst: array<Byte>, efs: seq<nat>, seedPositions: seq<nat>, ef: seq<Byte>, ss: seq<Byte>, fb: seq<Byte>, ghost B: Block)
      returns (r: Result<nat, Error>)
      requires 8220 <= dst.Length
      requires B.Shaped() && |B.sizes| == NUM_BUCKETS && 0 < B.Total() <= 0xFFFF && |B.List()| <= MAX_FALLBACK_ENTRIES
      requires EFPositions(B, efs) && SeedPositions(B, seedPositions) && B.IsEF(ef) && B.IsSeedStream(ss)
      requires fb == FallbackBytes(B.List())
      modifies dst
      ensures r.Ok? && r.value <= dst.Length && B.IsMetadata(dst[..r.value])
    {
      hide *;
      var cp := Uint16s(efs) + Uint16s(seedPositions);
      AssembledIs(B, cp + ef + ss + fb, efs, seedPositions, ef, ss);
      EstimateIs();
      var totalSize := |cp| + |ef| + |ss| + |fb|;
      if dst.Length < totalSize {
        return Err(BufferTooSmall);
      }
      assert dst[..0] == [] && [] + cp == cp;
      AppendSection(dst, [], 0, cp);
      AppendSection(dst, cp, |cp|, ef);
      AppendSection(dst, cp + ef, |cp| + |ef|, ss);
      AppendSection(dst, cp + ef + ss, |cp| + |ef| + |ss|, fb);
      return Ok(totalSize);
    }

    lemma EstimateIs()
      ensures MAX_METADATA == 8220
    {
    }

    // ---------- Payloads ----------

    // The seeds of a bucket for slot computation, markers resolved.
    method BucketSeedsFor(b: nat, size: nat, ghost B: Block) returns (actual: seq<nat>)
      requires Ready(B) && B.Valid() && b < NUM_BUCKETS && b < |B.sizes| == |B.seeds| && size == B.sizes[b]
      ensures actual == B.seeds[b]
    {
      hide *;
      ReadyFacts(B);
      KeepsAt(B, buckets, seeds, splitSeeds, splitSeedIdx, fallbackList, b);
      PartSizesIs(size);
      SeedCount(B, b);
      SegmentConstants();
      var stored := StoredIn(size, seeds, splitSeeds, splitSeedIdx, b);
      actual := [];
      for p := 0 to |stored|
        invariant |actual| == p && |stored| == |B.seeds[b]|
        invariant forall q :: 0 <= q < p ==> actual[q] == B.seeds[b][q]
      {
        var seed := stored[p];
        if seed == FALLBACK_MARKER {
          var found;
          found, seed := ResolveFallbackSeed(fallbackList, b, p);
          MarkerFound(B, b, p, found, seed);
        }
        StoredSeedOr(B, b, p, stored[p], seed);
        actual := actual + [seed];
      }
    }

    lemma SeedCount(B: Block, b: nat)
      requires B.Shaped() && b < |B.sizes|
      ensures b < |B.seeds| && |B.seeds[b]| == |PartSizes(B.sizes[b])| == |B.StoredAll()[b]|
    {
      assert SeedsFit(B.seeds[b], B.sizes[b]);
    }

    // A marked part is always in the list: the builder never panics here.
    lemma MarkerFound(B: Block, b: nat, p: nat, found: bool, seed: nat)
      requires B.Valid() && b < |B.sizes| && B.Shaped() && b < |B.StoredAll()| && p < |B.StoredAll()[b]|
      requires B.StoredAll()[b][p] == FALLBACK_MARKER
      requires found ==> FallbackEntry(b, p, seed) in B.List()
      requires !found ==> forall e :: e in B.List() ==> !(e.bucketIndex == b && e.subBucket == p)
      ensures found && FoundFor(B.List(), b, p, seed)
    {
      ValidFacts(B);
      SeedCount(B, b);
      var e := FallbackEntry(b, p, B.seeds[b][p]);
      hide Fallbacks, PartSizes, Block.Valid, StoredSeed;
      FallbackEntries(B.seeds, B.sizes, |B.sizes|, e);
    }

    // One entry, by its size.
    method WriteOne(dst: array<Byte>, slot: nat, e: Entry)
      requires e.fingerprint < Pow2(8 * fingerprintSize)
      requires Offset(slot, fingerprintSize + payloadSize) + fingerprintSize + payloadSize <= dst.Length
      modifies dst
      ensures Stored(old(dst[..]), dst[..], Offset(slot, fingerprintSize + payloadSize),
                     EntryBytes(e.fingerprint, e.payload, fingerprintSize, payloadSize))
    {
      hide Stored, Offset, EntryBytes, Pow2;
      var entrySize := fingerprintSize + payloadSize;
      if entrySize in {1, 4, 5, 8} {
        WriteEntry(dst, slot, entrySize, e.fingerprint, e.payload, fingerprintSize);
      } else {
        WriteEntryGeneric(dst, slot, entrySize, e.fingerprint, e.payload, fingerprintSize);
      }
    }

    // What the payload encoder may count on.
    ghost predicate Encodable()
      reads `buckets, `keysInBlock, `added, `bucketSizes, `cumulative, `seeds, `splitSeeds, `splitSeedIdx, `fallbackList
    {
      Grouped() && Storable(g, added) && Seeds(g, added).Ok? && Ready(BlockOf(g, added))
      && forall e :: e in added ==> e.fingerprint < Pow2(8 * fingerprintSize)
    }

    lemma EncodableFacts()
      requires Encodable()
      ensures Solved(g, added) && Seeds(g, added).Ok? && Ready(BlockOf(g, added)) && BlockOf(g, added).Valid()
      ensures |buckets| == NUM_BUCKETS && buckets == g.Buckets(added) && keysInBlock == |added|
      ensures |BlockOf(g, added).sizes| == |BlockOf(g, added).seeds| == NUM_BUCKETS
      ensures bucketSizes == BlockOf(g, added).sizes
    {
      SolvedShaped(g, added);
      GroupedIs();
      hide Seeds, Keeps, Sum;
    }

    lemma EncodableEntry(b: nat, p: nat)
      requires Encodable() && b < |buckets| && p < |buckets[b]|
      ensures buckets[b][p].fingerprint < Pow2(8 * fingerprintSize)
    {
      GroupedIs();
      GroupMember(g.Classifier(), added, b, p);
    }

    /** One pass over the buckets; every entry goes to its key's slot. */
    method EncodePayloads(dst: array<Byte>)
      requires Encodable() && Offset(keysInBlock, fingerprintSize + payloadSize) <= dst.Length
      modifies dst
      ensures Solved(g, added) && StoresAll(dst[..], g, added, fingerprintSize, payloadSize)
    {
      hide *;
      EncodableFacts();
      ghost var B := BlockOf(g, added);
      var localIdx := 0;
      NothingBefore(dst[..], g, added, fingerprintSize, payloadSize);
      SumStart(B.sizes);
      for b := 0 to |buckets|
        invariant StoredBefore(dst[..], g, added, b, 0, fingerprintSize, payloadSize)
        invariant localIdx == Sum(B.sizes, b)
      {
        EncodePayloadBucket(dst, b, localIdx);
        NextBucket(dst[..], g, added, b, fingerprintSize, payloadSize);
        SumNext(B.sizes, b);
        localIdx := localIdx + bucketSizes[b];
      }
      StoredIsStoresAll(dst[..], g, added, fingerprintSize, payloadSize);
    }

    method EncodePayloadBucket(dst: array<Byte>, b: nat, bucketStart: nat)
      requires Encodable() && Offset(keysInBlock, fingerprintSize + payloadSize) <= dst.Length
      requires Solved(g, added) && Seeds(g, added).Ok? && b < |buckets| && b <= |BlockOf(g, added).sizes|
      requires bucketStart == Sum(BlockOf(g, added).sizes, b)
      requires StoredBefore(dst[..], g, added, b, 0, fingerprintSize, payloadSize)
      modifies dst
      ensures |buckets| == |g.Buckets(added)|
      ensures StoredBefore(dst[..], g, added, b, |g.Buckets(added)[b]|, fingerprintSize, payloadSize)
    {
      hide *;
      EncodableFacts();
      ghost var B := BlockOf(g, added);
      var size := bucketSizes[b];
      var actual := BucketSeedsFor(b, size, B);
      for p := 0 to |buckets[b]|
        invariant StoredBefore(dst[..], g, added, b, p, fingerprintSize, payloadSize)
      {
        PlaceIs(g, added, b, p);
        EncodableEntry(b, p);
        var e := buckets[b][p];
        var slot := bucketStart + LocalSlot(g.mix, e.parts, size, actual);
        OffsetFits(slot, keysInBlock, fingerprintSize + payloadSize);
        ghost var before := dst[..];
        WriteOne(dst, slot, e);
        StoredOneMore(before, dst[..], g, added, b, p, fingerprintSize, payloadSize);
      }
    }

    // ---------- The block ----------

    function MaxMetadataSizeForCurrentBlock(): nat
      reads this
    {
      EstimateMetadataSize(keysInBlock)
    }

    // Metadata and payloads of the block are in place.
    ghost predicate Written(built: Built, metadata: seq<Byte>, payloads: seq<Byte>)
      reads `added
    {
      && Storable(g, added) && Seeds(g, added).Ok?
      && built.payloadsLen == Offset(|added|, fingerprintSize + payloadSize) && built.numKeys == |added|
      && built.metadataLen <= |metadata| && BlockOf(g, added).IsMetadata(metadata[..built.metadataLen])
      && (fingerprintSize + payloadSize > 0 ==> StoresAll(payloads, g, added, fingerprintSize, payloadSize))
    }

    /** Builds the block into the caller's buffers.  It fails exactly when the key
        limit is exceeded, a bucket has no seeds, or the fallback list overflows. */
    method BuildSeparatedInto(metadataDst: array<Byte>, payloadsDst: array<Byte>) returns (r: Result<Built, Error>)
      requires Valid() && metadataDst != payloadsDst
      requires forall e :: e in added ==> e.fingerprint < Pow2(8 * fingerprintSize)
      requires MaxMetadataSizeForCurrentBlock() <= metadataDst.Length
      requires Offset(keysInBlock, fingerprintSize + payloadSize) <= payloadsDst.Length
      modifies `bucketSizes, `cumulative, `seeds, `splitSeeds, `splitSeedIdx, `fallbackList, `slots, slots
      modifies seedEncoder, metadataDst, payloadsDst
      ensures Valid()
      ensures keysInBlock == 0 ==> r == Ok(Built(157, 0, 0)) && 157 <= metadataDst.Length && IsEmptyMetadata(metadataDst[..157])
      ensures keysInBlock > maxKeysPerBlock ==> keysInBlock == 0 || r == Err(BlockOverflow)
      ensures 0 < keysInBlock <= maxKeysPerBlock ==>
                match Seeds(g, added)
                case Err(e) => r == Err(e)
                case Ok(_) => if Storable(g, added) then r.Ok? && Written(r.value, metadataDst[..], payloadsDst[..])
                              else r == Err(BlockOverflow)
    {
      hide *;
      Limits();
      if keysInBlock == 0 {
        var n := BuildEmptyMetadataInto(metadataDst);
        return Ok(Built(n, 0, 0));
      }
      if keysInBlock > maxKeysPerBlock {
        return Err(BlockOverflow);
      }
      ComputeCumulativeCounts();
      var err, all := SolveBijections();
      if err.Some? {
        return Err(err.value);
      }
      BecomesReady(all);
      var metadataLen := EncodeSeparatedMetadataInto(metadataDst, BlockOf(g, added));
      StorableIs();
      if metadataLen.Err? {
        return Err(metadataLen.error);
      }
      ghost var metadata := metadataDst[..];
      if fingerprintSize + payloadSize > 0 {
        BecomesEncodable();
        EncodePayloads(payloadsDst);
      }
      assert metadataDst[..] == metadata && metadata[..metadataLen.value] == metadataDst[..metadataLen.value];
      var built := Built(metadataLen.value, keysInBlock * (fingerprintSize + payloadSize), keysInBlock);
      WrittenIs(built, metadataDst[..], payloadsDst[..]);
      return Ok(built);
    }

    lemma Limits()
      requires Valid()
      ensures maxKeysPerBlock <= 0xFFFF && Grouped() && keysInBlock == |added|
      ensures MaxMetadataSizeForCurrentBlock() == EstimateMetadataSize(keysInBlock)
      ensures EstimateMetadataSize(0) == 157 && (keysInBlock > 0 ==> EstimateMetadataSize(keysInBlock) == 8220)
    {
    }

    lemma BecomesReady(all: seq<seq<nat>>)
      requires Grouped() && 0 < keysInBlock <= 0xFFFF && Seeds(g, added) == Ok(all)
      requires SolvedTo(buckets, all, seeds, splitSeeds, splitSeedIdx, fallbackList, NUM_BUCKETS)
      requires bucketSizes == SizesOf(buckets) && cumulative == Cumulative(SizesOf(buckets))
      ensures Solved(g, added) && Seeds(g, added).Ok? && Ready(BlockOf(g, added))
    {
      SolvedShaped(g, added);
      hide Seeds, SolvedTo, Block.Shaped, Cumulative;
    }

    lemma StorableIs()
      requires Grouped() && Solved(g, added) && Seeds(g, added).Ok? && Ready(BlockOf(g, added))
      ensures Storable(g, added) <==> |fallbackList| <= 255
    {
      ReadyFacts(BlockOf(g, added));
      hide Solved, Seeds, Keeps, Block.Shaped, Block.List;
    }

    lemma BecomesEncodable()
      requires Grouped() && Storable(g, added) && Seeds(g, added).Ok? && Ready(BlockOf(g, added))
      requires forall e :: e in added ==> e.fingerprint < Pow2(8 * fingerprintSize)
      ensures Encodable()
    {
      hide Storable, Seeds, Keeps, Pow2;
    }

    lemma WrittenIs(built: Built, metadata: seq<Byte>, payloads: seq<Byte>)
      requires Storable(g, added) && Seeds(g, added).Ok? && Solved(g, added)
      requires built.payloadsLen == |added| * (fingerprintSize + payloadSize) && built.numKeys == |added|
      requires built.metadataLen <= |metadata| && BlockOf(g, added).IsMetadata(metadata[..built.metadataLen])
      requires fingerprintSize + payloadSize > 0 ==> StoresAll(payloads, g, added, fingerprintSize, payloadSize)
      ensures Written(built, metadata, payloads)
    {
      hide Storable, Seeds, Block.IsMetadata, StoresAll, Solved;
    }
  }
}
