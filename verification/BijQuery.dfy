/** The bijection query answers every key of a block with the slot the builder gave
    it. */
module BijQuery {
  import opened Basics
  import opened LittleEndian
  import opened Words
  import opened BitIO
  import opened SeedStream
  import opened EliasFano
  import opened BijSpec
  import opened BijMetadata
  import opened BijBlock
  import opened BijDecoder

  // ---------- What the query needs of the metadata ----------

  lemma CheckpointIs(B: Block, metadata: seq<Byte>, rest: seq<Byte>, segment: nat)
    requires B.Valid() && metadata == B.Checkpoints() + rest && segment <= NUM_CHECKPOINTS
    ensures segment * CHECKPOINT_INTERVAL <= |B.sizes|
    ensures CheckpointOf(metadata, segment, 0) == B.EFCheckpoint(segment * CHECKPOINT_INTERVAL)
    ensures CheckpointOf(metadata, segment, NUM_CHECKPOINTS) == B.SeedCheckpoint(segment * CHECKPOINT_INTERVAL)
  {
    hide *;
    CheckpointOfIs(metadata, segment, 0);
    CheckpointOfIs(metadata, segment, NUM_CHECKPOINTS);
    ValidFacts(B);
    if segment > 0 {
      CheckpointsRead(B, segment - 1);
      Uint16Front(B.Checkpoints(), rest, segment - 1);
      Uint16Front(B.Checkpoints(), rest, NUM_CHECKPOINTS + (segment - 1));
    } else {
      FirstCheckpoint(B);
    }
  }

  lemma CheckpointOfIs(metadata: seq<Byte>, segment: nat, base: nat)
    ensures NUM_CHECKPOINTS == 7 && CHECKPOINT_INTERVAL == 128 && CHECKPOINTS_SIZE == 28
    ensures segment > 0 && 2 * (base + segment) <= |metadata| ==> CheckpointOf(metadata, segment, base) == Uint16At(metadata, base + segment - 1)
    ensures segment == 0 ==> CheckpointOf(metadata, segment, base) == 0
  {
  }

  lemma FirstCheckpoint(B: Block)
    requires B.Shaped()
    ensures B.EFCheckpoint(0) == 0 == B.SeedCheckpoint(0)
  {
    hide ComputeEFLowBits, StoredSeeds;
  }

  // The cumulative sizes decode in every segment.
  lemma SegmentsDecode(B: Block, metadata: seq<Byte>, ef: seq<Byte>, ss: seq<Byte>, bucketIdx: nat)
    requires B.Valid() && B.Layout(metadata, ef, ss) && bucketIdx < NUM_BUCKETS
    ensures SegmentDecodes(metadata, B.Total(), bucketIdx, B.Cum())
  {
    hide *;
    ValidFacts(B);
    LayoutFacts(B, metadata, ef, ss);
    Sections(B, metadata, ef, ss);
    Constants(bucketIdx);
    var rest := ef + (ss + FallbackBytes(B.List()));
    CheckpointIs(B, metadata, rest, bucketIdx / 128);
    EFBehind(B, ef, ss + FallbackBytes(B.List()));
    CumulativeFacts(B.sizes);
    DecodesFrom(metadata, B.Total(), bucketIdx, B.Cum(), rest, B.EFCheckpoint(SegmentStart(bucketIdx)));
  }

  lemma ValidFacts(B: Block)
    requires B.Valid()
    ensures B.Shaped() && |B.sizes| == |B.seeds| == NUM_BUCKETS == 1024 && 0 < B.Total() <= MAX_UINT16 < 0x1_0000
    ensures |B.List()| <= MAX_FALLBACK_ENTRIES && B.LowBits() == ComputeEFLowBits(NUM_BUCKETS, B.Total())
    ensures B.Cum() == Cumulative(B.sizes) && B.Total() == Sum(B.sizes, |B.sizes|)
    ensures forall b :: 0 <= b < |B.sizes| ==> SeedsFit(B.seeds[b], B.sizes[b])
    ensures forall b :: 0 <= b <= |B.sizes| ==> B.EFCheckpoint(b) == ScanStart(B.Cum(), B.LowBits(), b)
    ensures forall b :: 0 <= b <= |B.sizes| ==> B.SeedCheckpoint(b) == |Codes(B.sizes, B.StoredAll(), b)|
  {
    hide ComputeEFLowBits, Codes, ScanStart, Fallbacks, Sum;
  }

  lemma LayoutFacts(B: Block, metadata: seq<Byte>, ef: seq<Byte>, ss: seq<Byte>)
    requires B.Valid() && B.Layout(metadata, ef, ss)
    ensures B.Shaped() && B.IsEF(ef) && B.IsSeedStream(ss)
    ensures metadata == B.Checkpoints() + (ef + (ss + FallbackBytes(B.List())))
  {
    hide FallbackBytes, Block.Checkpoints, Block.IsSeedStream, Block.IsEF, Block.List;
    assert metadata == B.Checkpoints() + (ef + (ss + FallbackBytes(B.List())));
  }

  lemma DecodesFrom(metadata: seq<Byte>, keysInBlock: nat, bucketIdx: nat, cum: seq<nat>, efData: seq<Byte>, startBit: nat)
    requires bucketIdx < NUM_BUCKETS == |cum| && |metadata| >= CHECKPOINTS_SIZE + 128
    requires metadata[CHECKPOINTS_SIZE..] == efData && Encodes(efData, cum, ComputeEFLowBits(NUM_BUCKETS, keysInBlock))
    requires startBit == CheckpointOf(metadata, bucketIdx / 128, 0)
    requires SegmentStart(bucketIdx) <= NUM_BUCKETS && startBit == ScanStart(cum, ComputeEFLowBits(NUM_BUCKETS, keysInBlock), SegmentStart(bucketIdx))
    requires forall i :: 0 <= i < |cum| ==> cum[i] < 0x1_0000
    requires forall i :: 0 < i < |cum| ==> cum[i - 1] <= cum[i]
    ensures SegmentDecodes(metadata, keysInBlock, bucketIdx, cum)
  {
    hide Encodes, ScanStart, CheckpointOf, ComputeEFLowBits;
  }

  // The seed stream sits behind the Elias-Fano data.
  lemma StreamHeld(B: Block, metadata: seq<Byte>, ef: seq<Byte>, ss: seq<Byte>)
    requires B.Valid() && B.Layout(metadata, ef, ss)
    ensures B.Shaped() && CHECKPOINTS_SIZE + EliasFanoSize(NUM_BUCKETS, B.Total()) < |metadata|
    ensures Streams(metadata[CHECKPOINTS_SIZE + EliasFanoSize(NUM_BUCKETS, B.Total())..], B.sizes, B.StoredAll())
  {
    hide *;
    ValidFacts(B);
    LayoutFacts(B, metadata, ef, ss);
    Sections(B, metadata, ef, ss);
    StreamBehind(B, ss, FallbackBytes(B.List()));
    StreamsFrom(B, ss + FallbackBytes(B.List()));
  }

  lemma StreamsFrom(B: Block, data: seq<Byte>)
    requires B.Shaped() && HasBits(data, 0, B.SeedBits())
    ensures Streams(data, B.sizes, B.StoredAll())
  {
    hide HasBits, Codes, StoredSeed;
    forall b | 0 <= b < |B.sizes| ensures Codable(B.StoredAll()[b], B.sizes[b]) {
      StoredCodable(B.seeds[b], B.sizes[b]);
    }
  }

  lemma StoredCodable(seeds: seq<nat>, size: nat)
    requires |seeds| == |PartSizes(size)|
    ensures Codable(StoredSeeds(seeds, size), size)
  {
    hide StoredSeed, HasCode;
  }

  // ---------- The list ----------

  lemma {:induction false} BucketFallbackEntries(b: nat, seeds: seq<nat>, size: nat, from: nat, e: FallbackEntry)
    requires |seeds| == |PartSizes(size)|
    ensures e in BucketFallbacks(b, seeds, size, from) <==>
              && e.bucketIndex == b && from <= e.subBucket < |seeds| && e.seed == seeds[e.subBucket]
              && StoredSeed(e.seed, PartSizes(size)[e.subBucket]) == FALLBACK_MARKER
    decreases |seeds| - from
  {
    hide *;
    BucketFallbacksStep(b, seeds, size, from);
    if from < |seeds| {
      BucketFallbackEntries(b, seeds, size, from + 1, e);
    }
  }

  lemma BucketFallbacksStep(b: nat, seeds: seq<nat>, size: nat, p: nat)
    requires |seeds| == |PartSizes(size)|
    ensures p >= |seeds| ==> BucketFallbacks(b, seeds, size, p) == []
    ensures p < |seeds| ==>
              BucketFallbacks(b, seeds, size, p) ==
              (if StoredSeed(seeds[p], PartSizes(size)[p]) == FALLBACK_MARKER then [FallbackEntry(b, p, seeds[p])] else [])
              + BucketFallbacks(b, seeds, size, p + 1)
  {
    hide StoredSeed, PartSizes;
  }

  // The list holds exactly the marked parts.
  lemma {:induction false} FallbackEntries(seeds: seq<seq<nat>>, sizes: seq<nat>, n: nat, e: FallbackEntry)
    requires n <= |seeds| && n <= |sizes| && forall b :: 0 <= b < n ==> |seeds[b]| == |PartSizes(sizes[b])|
    ensures e in Fallbacks(seeds, sizes, n) <==>
              && e.bucketIndex < n && e.subBucket < |seeds[e.bucketIndex]|
              && e.seed == seeds[e.bucketIndex][e.subBucket]
              && StoredSeed(e.seed, PartSizes(sizes[e.bucketIndex])[e.subBucket]) == FALLBACK_MARKER
  {
    hide StoredSeed, PartSizes;
    if n > 0 {
      FallbackEntries(seeds, sizes, n - 1, e);
      BucketFallbackEntries(n - 1, seeds[n - 1], sizes[n - 1], 0, e);
    }
  }

  lemma PartsAtMostTwo(size: nat)
    ensures |PartSizes(size)| <= 2
  {
  }

  lemma ListFits(B: Block)
    requires B.Valid()
    ensures forall e :: e in B.List() ==> EntryFits(e)
  {
    ValidFacts(B);
    hide Fallbacks, StoredSeed, Block.Valid, PartSizes;
    forall e | e in B.List() ensures EntryFits(e) {
      FallbackEntries(B.seeds, B.sizes, |B.sizes|, e);
      PartsAtMostTwo(B.sizes[e.bucketIndex]);
      assert SeedsFit(B.seeds[e.bucketIndex], B.sizes[e.bucketIndex]);
    }
  }

  lemma ListEnds(B: Block, metadata: seq<Byte>, ef: seq<Byte>, ss: seq<Byte>)
    requires B.Valid() && B.Layout(metadata, ef, ss)
    ensures EndsInList(metadata, CHECKPOINTS_SIZE + EliasFanoSize(NUM_BUCKETS, B.Total()), B.Checkpoints() + ef + ss, B.List())
  {
    ListFits(B);
    hide EntryFits, FallbackBytes, Block.Checkpoints, Coded, Encodes, EliasFanoSize, Block.List, Block.IsSeedStream;
  }

  // A marker stands for a seed the list holds, a stored seed for itself.
  lemma ListRecovers(B: Block, b: nat)
    requires B.Valid() && b < |B.sizes|
    ensures B.Shaped() && |B.StoredAll()| == |B.seeds| == |B.sizes|
    ensures Recovers(B.List(), b, B.StoredAll()[b], B.seeds[b])
  {
    ValidFacts(B);
    hide Fallbacks, StoredSeed, Block.Valid, PartSizes;
    var stored, actual := B.StoredAll()[b], B.seeds[b];
    assert SeedsFit(actual, B.sizes[b]);
    forall p | 0 <= p < |stored|
      ensures if stored[p] != FALLBACK_MARKER then actual[p] == stored[p]
              else forall seed :: FoundFor(B.List(), b, p, seed) ==> seed == actual[p]
    {
      StoredOrMarker(actual[p], PartSizes(B.sizes[b])[p]);
      if stored[p] == FALLBACK_MARKER {
        forall seed | FoundFor(B.List(), b, p, seed) ensures seed == actual[p] {
          FallbackEntries(B.seeds, B.sizes, |B.sizes|, FallbackEntry(b, p, actual[p]));
          FallbackEntries(B.seeds, B.sizes, |B.sizes|, FallbackEntry(b, p, seed));
        }
      }
    }
  }

  lemma StoredOrMarker(seed: nat, partSize: nat)
    ensures StoredSeed(seed, partSize) == seed || StoredSeed(seed, partSize) == FALLBACK_MARKER
  {
    hide MaxEncodableSeed;
  }

  // ---------- The query ----------

  // What a query of a key of bucket b has to answer.
  ghost function Answer(B: Block, mix: MixHash, parts: Parts, b: nat): Result<nat, QueryError>
    requires B.Shaped() && b < |B.sizes|
  {
    if B.sizes[b] == 0 then Err(NotFound) else Ok(B.Slot(mix, parts, b))
  }

  lemma AnswerIs(B: Block, mix: MixHash, parts: Parts, b: nat)
    requires B.Shaped() && b < |B.sizes|
    ensures |B.seeds| == |B.sizes| && |B.seeds[b]| == |PartSizes(B.sizes[b])|
    ensures Answer(B, mix, parts, b) ==
            if B.sizes[b] == 0 then Err(NotFound) else Ok(Sum(B.sizes, b) + LocalSlot(mix, parts, B.sizes[b], B.seeds[b]))
  {
    assert SeedsFit(B.seeds[b], B.sizes[b]);
  }

  // The metadata is that of block B.
  ghost predicate Of(B: Block, metadata: seq<Byte>, ef: seq<Byte>, ss: seq<Byte>) {
    B.Valid() && B.Layout(metadata, ef, ss)
  }

  // Everything the query relies on, for one bucket.
  lemma QueryFacts(B: Block, metadata: seq<Byte>, ef: seq<Byte>, ss: seq<Byte>, b: nat)
    requires Of(B, metadata, ef, ss) && b < NUM_BUCKETS
    ensures B.Valid() && B.Shaped() && B.Total() == Sum(B.sizes, |B.sizes|) < 0x1_0000
    ensures |B.sizes| == |B.seeds| == |B.StoredAll()| == NUM_BUCKETS && Matches(B.sizes, B.StoredAll())
    ensures SegmentDecodes(metadata, B.Total(), b, Cumulative(B.sizes))
    ensures CHECKPOINTS_SIZE + EliasFanoSize(NUM_BUCKETS, B.Total()) < |metadata|
    ensures Streams(metadata[CHECKPOINTS_SIZE + EliasFanoSize(NUM_BUCKETS, B.Total())..], B.sizes, B.StoredAll())
    ensures SegmentStart(b) <= NUM_BUCKETS
    ensures CheckpointOf(metadata, b / 128, 7) == |Codes(B.sizes, B.StoredAll(), SegmentStart(b))|
    ensures EndsInList(metadata, CHECKPOINTS_SIZE + EliasFanoSize(NUM_BUCKETS, B.Total()), B.Checkpoints() + ef + ss, B.List())
    ensures Recovers(B.List(), b, B.StoredAll()[b], B.seeds[b])
  {
    assert B.Valid() && B.Layout(metadata, ef, ss);
    hide *;
    ValidFacts(B);
    LayoutFacts(B, metadata, ef, ss);
    Constants(b);
    SegmentsDecode(B, metadata, ef, ss, b);
    StreamHeld(B, metadata, ef, ss);
    CheckpointIs(B, metadata, ef + (ss + FallbackBytes(B.List())), b / 128);
    ListEnds(B, metadata, ef, ss);
    ListRecovers(B, b);
  }

  /** The slot of a key.  On the metadata of a block: the key's bucket's start plus
      its slot under the seeds the solver found, or NotFound for an empty bucket. */
  method QuerySlot(mix: MixHash, parts: Parts, bucketIdx: nat, metadata: seq<Byte>, keysInBlock: nat, ghost B: Block)
    returns (r: Result<nat, QueryError>)
    requires bucketIdx < NUM_BUCKETS && keysInBlock <= MAX_UINT16
    ensures keysInBlock == 0 ==> r == Err(NotFound)
    ensures B.IsMetadata(metadata) && keysInBlock == B.Total() ==>
              B.Shaped() && bucketIdx < |B.sizes| && r == Answer(B, mix, parts, bucketIdx)
  {
    if keysInBlock == 0 {
      if B.IsMetadata(metadata) { ValidFacts(B); }
      return Err(NotFound);
    }
    ghost var ef, ss: seq<Byte> := [], [];
    ghost var ok := B.IsMetadata(metadata) && keysInBlock == B.Total();
    if ok {
      ef, ss :| B.Layout(metadata, ef, ss);
      assert Of(B, metadata, ef, ss);
      ValidFacts(B);
    }
    hide *;
    r := QueryOf(mix, parts, bucketIdx, metadata, keysInBlock, B, ef, ss, ok);
  }

  method QueryOf(mix: MixHash, parts: Parts, bucketIdx: nat, metadata: seq<Byte>, keysInBlock: nat,
                 ghost B: Block, ghost ef: seq<Byte>, ghost ss: seq<Byte>, ghost ok: bool)
    returns (r: Result<nat, QueryError>)
    requires bucketIdx < NUM_BUCKETS && 0 < keysInBlock <= MAX_UINT16
    requires ok ==> Of(B, metadata, ef, ss) && keysInBlock == B.Total()
    ensures ok ==> B.Shaped() && bucketIdx < |B.sizes| && r == Answer(B, mix, parts, bucketIdx)
  {
    hide *;
    Constants(bucketIdx);
    ghost var sizes, stored, actual, front, list := [], [], [], [], [];
    if ok {
      QueryFacts(B, metadata, ef, ss, bucketIdx);
      AnswerIs(B, mix, parts, bucketIdx);
      sizes, stored, actual := B.sizes, B.StoredAll(), B.seeds[bucketIdx];
      front, list := B.Checkpoints() + ef + ss, B.List();
      BucketReadsAs(metadata[CHECKPOINTS_SIZE + EliasFanoSize(NUM_BUCKETS, keysInBlock)..], sizes, stored, bucketIdx);
    }
    if |metadata| <= CHECKPOINTS_SIZE {
      return Err(CorruptedIndex);
    }
    var cumulative := new nat[NUM_BUCKETS](_ => 0);
    var before := DecodeSegment(metadata, keysInBlock, bucketIdx, cumulative, Cumulative(sizes), ok);
    var decoded := cumulative[..];
    if ok { SizeDecoded(sizes, decoded, bucketIdx, before, bucketIdx); }
    var bucketStart := StartAt(decoded, bucketIdx, bucketIdx, before);
    var bucketSize := SizeAt(decoded, bucketIdx, bucketIdx, before);
    if bucketSize == 0 {
      return Err(NotFound);
    }
    var seedBitPos := CheckpointOf(metadata, bucketIdx / 128, 7);
    var seedStreamOffset := CHECKPOINTS_SIZE + EliasFanoSize(NUM_BUCKETS, keysInBlock);
    if seedStreamOffset >= |metadata| {
      return Err(CorruptedIndex);
    }
    var br := new BitReader(metadata[seedStreamOffset..]);
    if seedBitPos > 0 {
      br.SkipBits(seedBitPos);
    }
    SkipToBucket(br, decoded, bucketIdx, before, sizes, stored, ok);
    ghost var storedHere := if ok then stored[bucketIdx] else [];
    var seeds := ReadSeeds(br, metadata, seedStreamOffset, bucketIdx, bucketSize, storedHere, actual, front, list, ok);
    return Ok(bucketStart + LocalSlot(mix, parts, bucketSize, seeds));
  }
}
