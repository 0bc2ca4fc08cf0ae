/** The bijection query: one checkpoint jump, a short decode, a skip through the
    seed stream, and the slot. */
module BijDecoder {
  import opened Basics
  import opened Words
  import opened BitIO
  import opened SeedStream
  import opened EliasFano
  import opened EliasFanoUnrolled
  import opened BijSpec
  import opened BijMetadata
  import opened BijBlock

  // ---------- The segment ----------

  // The checkpoint of a segment; the first segment needs none.
  function CheckpointOf(metadata: seq<Byte>, segment: nat, base: nat): nat {
    if segment > 0 && 2 * (base + segment) <= |metadata| then Uint16At(metadata, base + segment - 1) else 0
  }

  function SegmentStart(bucketIdx: nat): nat { bucketIdx / CHECKPOINT_INTERVAL * CHECKPOINT_INTERVAL }

  // The metadata holds `cum`, and the segment's checkpoint points at its start.
  ghost predicate SegmentDecodes(metadata: seq<Byte>, keysInBlock: nat, bucketIdx: nat, cum: seq<nat>) {
    && |metadata| >= CHECKPOINTS_SIZE + 8 && |cum| == NUM_BUCKETS
    && Decodable(metadata[CHECKPOINTS_SIZE..], cum, ComputeEFLowBits(NUM_BUCKETS, keysInBlock), SegmentStart(bucketIdx), bucketIdx,
                 CheckpointOf(metadata, bucketIdx / CHECKPOINT_INTERVAL, 0))
  }

  // The segment of bucketIdx has been decoded up to it, and the value before it.
  ghost predicate Decoded(cum: seq<nat>, cumulative: seq<nat>, bucketIdx: nat, before: nat) {
    var first := SegmentStart(bucketIdx);
    && first <= bucketIdx < |cum| && bucketIdx < |cumulative|
    && before == (if first > 0 then cum[first - 1] else 0)
    && forall i :: first <= i <= bucketIdx ==> cumulative[i] == cum[i]
  }

  lemma DecodedIs(cum: seq<nat>, cumulative: seq<nat>, bucketIdx: nat, before: nat)
    requires SegmentStart(bucketIdx) <= bucketIdx < |cum| && bucketIdx < |cumulative|
    requires before == if SegmentStart(bucketIdx) > 0 then cum[SegmentStart(bucketIdx) - 1] else 0
    requires Values(cum, cumulative, SegmentStart(bucketIdx), bucketIdx)
    ensures Decoded(cum, cumulative, bucketIdx, before)
  {
  }

  lemma Constants(bucketIdx: nat)
    requires bucketIdx < NUM_BUCKETS
    ensures CHECKPOINT_INTERVAL == 128 && NUM_CHECKPOINTS == 7 && NUM_BUCKETS == 1024 && CHECKPOINTS_SIZE == 28
    ensures SegmentStart(bucketIdx) == bucketIdx / 128 * 128 <= bucketIdx && bucketIdx / 128 <= 7
    ensures SegmentStart(bucketIdx) > 0 <==> bucketIdx / 128 > 0
  {
  }

  // The values first .. last have been decoded.
  ghost predicate Values(cum: seq<nat>, values: seq<nat>, first: nat, last: nat) {
    last < |cum| && last < |values| && forall i :: first <= i <= last ==> values[i] == cum[i]
  }

  // The values first .. last, by the range decoder; if it gives up, by the full one.
  method DecodeValues(efData: seq<Byte>, keysInBlock: nat, first: nat, last: nat, startBit: nat, cumulative: array<nat>,
                      ghost cum: seq<nat>, ghost ok: bool)
    requires keysInBlock <= MAX_UINT16 && first <= last < NUM_BUCKETS == cumulative.Length
    requires ok ==> |efData| >= 8 && |cum| == NUM_BUCKETS
                    && Decodable(efData, cum, ComputeEFLowBits(NUM_BUCKETS, keysInBlock), first, last, startBit)
    modifies cumulative
    ensures ok ==> Values(cum, cumulative[..], first, last)
  {
    EFBounds(keysInBlock);
    Constants(last);
    hide *;
    var count := DecodeEFRangeInline(efData, NUM_BUCKETS, keysInBlock, first, last, startBit, cumulative, cum);
    if count == 0 {
      // Reached only on fewer than eight bytes, where the full decoder gives up, too.
      assert |efData| < 8;
      DecodeEliasFanoUnrolled(efData, NUM_BUCKETS, keysInBlock, cumulative, cum);
    }
    if ok { ValuesIf(cum, cumulative[..], first, last); }
  }

  lemma ValuesIf(cum: seq<nat>, values: seq<nat>, first: nat, last: nat)
    requires last < |cum| && last < |values| && forall i :: first <= i <= last ==> values[i] == cum[i]
    ensures Values(cum, values, first, last)
  {
  }

  method DecodeSegment(metadata: seq<Byte>, keysInBlock: nat, bucketIdx: nat, cumulative: array<nat>, ghost cum: seq<nat>, ghost ok: bool)
    returns (before: nat)
    requires |metadata| > CHECKPOINTS_SIZE && keysInBlock <= MAX_UINT16
    requires bucketIdx < NUM_BUCKETS == cumulative.Length
    requires ok ==> SegmentDecodes(metadata, keysInBlock, bucketIdx, cum)
    modifies cumulative
    ensures ok ==> Decoded(cum, cumulative[..], bucketIdx, before)
  {
    EFBounds(keysInBlock);
    Constants(bucketIdx);
    hide *;
    var segment := bucketIdx / 128;
    var segmentStart := SegmentStart(bucketIdx);
    var efData := metadata[CHECKPOINTS_SIZE..];
    var lowBits := ComputeEFLowBits(NUM_BUCKETS, keysInBlock);
    var efBitPos := CheckpointOf(metadata, segment, 0);
    if ok { SegmentFacts(metadata, keysInBlock, bucketIdx, cum); }
    DecodeValues(efData, keysInBlock, segmentStart, bucketIdx, efBitPos, cumulative, cum, ok);
    before := if segment > 0 then BeforeSegment(efData, segmentStart, efBitPos, lowBits) else 0;
    if ok { SegmentDecoded(metadata, keysInBlock, bucketIdx, cum, cumulative[..], before); }
  }

  lemma SegmentDecoded(metadata: seq<Byte>, keysInBlock: nat, bucketIdx: nat, cum: seq<nat>, cumulative: seq<nat>, before: nat)
    requires keysInBlock <= MAX_UINT16 && bucketIdx < NUM_BUCKETS == |cumulative| && |metadata| > CHECKPOINTS_SIZE
    requires SegmentDecodes(metadata, keysInBlock, bucketIdx, cum)
    requires Values(cum, cumulative, SegmentStart(bucketIdx), bucketIdx)
    requires before == if bucketIdx / 128 > 0
                       then (Constants(bucketIdx);
                             BeforeSegment(metadata[CHECKPOINTS_SIZE..], SegmentStart(bucketIdx), CheckpointOf(metadata, bucketIdx / 128, 0),
                                           ComputeEFLowBits(NUM_BUCKETS, keysInBlock)))
                       else 0
    ensures Decoded(cum, cumulative, bucketIdx, before)
  {
    EFBounds(keysInBlock);
    Constants(bucketIdx);
    hide *;
    SegmentFacts(metadata, keysInBlock, bucketIdx, cum);
    if bucketIdx / 128 > 0 {
      ValueBeforeSegment(metadata[CHECKPOINTS_SIZE..], cum, ComputeEFLowBits(NUM_BUCKETS, keysInBlock), SegmentStart(bucketIdx), bucketIdx,
                         CheckpointOf(metadata, bucketIdx / 128, 0));
    }
    DecodedIs(cum, cumulative, bucketIdx, before);
  }

  lemma SegmentFacts(metadata: seq<Byte>, keysInBlock: nat, bucketIdx: nat, cum: seq<nat>)
    requires SegmentDecodes(metadata, keysInBlock, bucketIdx, cum)
    ensures |metadata| >= 36 && CHECKPOINTS_SIZE == 28 && |cum| == NUM_BUCKETS
    ensures Decodable(metadata[CHECKPOINTS_SIZE..], cum, ComputeEFLowBits(NUM_BUCKETS, keysInBlock), SegmentStart(bucketIdx), bucketIdx,
                      CheckpointOf(metadata, bucketIdx / 128, 0))
  {
    hide Decodable, CheckpointOf;
  }

  // What the decoded segment says about bucket i's start and size.
  function StartAt(cumulative: seq<nat>, i: nat, bucketIdx: nat, before: nat): nat
    requires i < |cumulative|
  {
    if i > SegmentStart(bucketIdx) then cumulative[i - 1] else before
  }

  function SizeAt(cumulative: seq<nat>, i: nat, bucketIdx: nat, before: nat): nat
    requires i < |cumulative|
  {
    (cumulative[i] as int - StartAt(cumulative, i, bucketIdx, before) as int) % 0x1_0000
  }

  lemma SizeDecoded(sizes: seq<nat>, cumulative: seq<nat>, bucketIdx: nat, before: nat, i: nat)
    requires Sum(sizes, |sizes|) < 0x1_0000 && SegmentStart(bucketIdx) <= i <= bucketIdx < |sizes|
    requires Decoded(Cumulative(sizes), cumulative, bucketIdx, before)
    ensures i < |cumulative|
    ensures SizeAt(cumulative, i, bucketIdx, before) == sizes[i]
    ensures StartAt(cumulative, i, bucketIdx, before) == Sum(sizes, i)
  {
    hide *;
    DecodedAt(Cumulative(sizes), cumulative, bucketIdx, before, i);
    SizeIs(cumulative, i, bucketIdx, before);
    SumMonotone(sizes, i + 1, |sizes|);
    SumStart(sizes);
    SumNext(sizes, i);
    SmallDifference(Sum(sizes, i + 1), Sum(sizes, i));
  }

  lemma DecodedAt(cum: seq<nat>, cumulative: seq<nat>, bucketIdx: nat, before: nat, i: nat)
    requires Decoded(cum, cumulative, bucketIdx, before) && SegmentStart(bucketIdx) <= i <= bucketIdx
    ensures i < |cum| && i < |cumulative| && cumulative[i] == cum[i]
    ensures StartAt(cumulative, i, bucketIdx, before) == if i > 0 then cum[i - 1] else 0
  {
    hide SegmentStart;
  }

  lemma SizeIs(cumulative: seq<nat>, i: nat, bucketIdx: nat, before: nat)
    requires i < |cumulative|
    ensures SizeAt(cumulative, i, bucketIdx, before)
         == (cumulative[i] as int - StartAt(cumulative, i, bucketIdx, before) as int) % 0x1_0000
  {
  }

  lemma SmallDifference(a: nat, b: nat)
    requires b <= a < 0x1_0000
    ensures (a as int - b as int) % 0x1_0000 == a - b
  {
  }

  // ---------- The seed stream ----------

  // Skips from the segment's checkpoint to the bucket.
  method SkipToBucket(br: BitReader, cumulative: seq<nat>, bucketIdx: nat, before: nat,
                      ghost sizes: seq<nat>, ghost stored: seq<seq<nat>>, ghost ok: bool)
    requires br.Valid() && SegmentStart(bucketIdx) <= bucketIdx < |cumulative|
    requires ok ==> Sum(sizes, |sizes|) < 0x1_0000 && bucketIdx < |sizes| && Decoded(Cumulative(sizes), cumulative, bucketIdx, before)
    requires ok ==> Streams(br.data, sizes, stored) && br.Pos() == |Codes(sizes, stored, SegmentStart(bucketIdx))|
    modifies br
    ensures br.Valid()
    ensures ok ==> br.Pos() == |Codes(sizes, stored, bucketIdx)|
  {
    hide *;
    if ok { StreamsMatch(br.data, sizes, stored); }
    for i := SegmentStart(bucketIdx) to bucketIdx
      invariant br.Valid()
      invariant ok ==> br.Pos() == |Codes(sizes, stored, i)|
    {
      if ok {
        SizeDecoded(sizes, cumulative, bucketIdx, before, i);
        SkipLands(sizes, stored, br.data, i);
      }
      SkipBucket(br, SizeAt(cumulative, i, bucketIdx, before));
    }
  }

  // The data starts with the codes of the stored seeds.
  ghost predicate Streams(data: seq<Byte>, sizes: seq<nat>, stored: seq<seq<nat>>) {
    && Matches(sizes, stored)
    && (forall b :: 0 <= b < |sizes| ==> Codable(stored[b], sizes[b]))
    && HasBits(data, 0, Codes(sizes, stored, |sizes|))
  }

  lemma StreamsMatch(data: seq<Byte>, sizes: seq<nat>, stored: seq<seq<nat>>)
    requires Streams(data, sizes, stored)
    ensures Matches(sizes, stored)
  {
  }

  // One bucket further in the stream.
  lemma SkipLands(sizes: seq<nat>, stored: seq<seq<nat>>, data: seq<Byte>, b: nat)
    requires Streams(data, sizes, stored) && b < |sizes|
    ensures SkipBucketAt(data, |Codes(sizes, stored, b)|, sizes[b]) == |Codes(sizes, stored, b + 1)|
  {
    BucketCodeAt(data, sizes, stored, b);
    assert Codable(stored[b], sizes[b]);
    hide HasBits, Codes, BucketCode, Codable, SkipBucketAt;
    BucketRead(data, |Codes(sizes, stored, b)|, stored[b], sizes[b]);
  }

  // Reading bucket b at its place in the stream gives what is stored.
  ghost predicate ReadsAs(data: seq<Byte>, pos: nat, size: nat, stored: seq<nat>) {
    && |stored| == |PartSizes(size)|
    && (size >= SPLIT_THRESHOLD ==>
          SeedAt(data, pos, size / 2) == stored[0] && SeedAt(data, SkipAt(data, pos, size / 2), size - size / 2) == stored[1])
    && (2 <= size < SPLIT_THRESHOLD ==> SeedAt(data, pos, size) == stored[0])
  }

  lemma BucketReadsAs(data: seq<Byte>, sizes: seq<nat>, stored: seq<seq<nat>>, b: nat)
    requires Streams(data, sizes, stored) && b < |sizes|
    ensures Matches(sizes, stored) && ReadsAs(data, |Codes(sizes, stored, b)|, sizes[b], stored[b])
  {
    hide *;
    StreamsAt(data, sizes, stored, b);
    BucketRead(data, |Codes(sizes, stored, b)|, stored[b], sizes[b]);
    ReadsAsFrom(data, |Codes(sizes, stored, b)|, sizes[b], stored[b]);
  }

  lemma StreamsAt(data: seq<Byte>, sizes: seq<nat>, stored: seq<seq<nat>>, b: nat)
    requires Streams(data, sizes, stored) && b < |sizes|
    ensures Matches(sizes, stored) && |stored| == |sizes| && |stored[b]| == |PartSizes(sizes[b])| && Codable(stored[b], sizes[b])
    ensures HasBits(data, |Codes(sizes, stored, b)|, BucketCode(stored[b], sizes[b]))
  {
    BucketCodeAt(data, sizes, stored, b);
    hide HasBits, Codes, BucketCode, Codable, PartSizes;
  }

  lemma ReadsAsFrom(data: seq<Byte>, pos: nat, size: nat, stored: seq<nat>)
    requires |stored| == |PartSizes(size)|
    requires size >= SPLIT_THRESHOLD ==>
               SeedAt(data, pos, size / 2) == stored[0] && SeedAt(data, SkipAt(data, pos, size / 2), size - size / 2) == stored[1]
    requires 2 <= size < SPLIT_THRESHOLD ==> SeedAt(data, pos, size) == stored[0]
    ensures ReadsAs(data, pos, size, stored)
  {
    hide SeedAt, SkipAt;
  }

  // ---------- Fallback seeds ----------

  // The metadata ends in the list, behind the seed stream's start.
  ghost predicate EndsInList(metadata: seq<Byte>, seedStreamOffset: nat, front: seq<Byte>, list: seq<FallbackEntry>) {
    && |list| <= MAX_FALLBACK_ENTRIES && metadata == front + FallbackBytes(list) && seedStreamOffset <= |front|
    && (forall e :: e in list ==> EntryFits(e))
  }

  // Stored seeds are the actual ones; for a marker the list has the actual seed,
  // and no other, for that part.
  ghost predicate Recovers(list: seq<FallbackEntry>, b: nat, stored: seq<nat>, actual: seq<nat>) {
    && |stored| == |actual|
    && forall p :: 0 <= p < |stored| ==>
      if stored[p] != FALLBACK_MARKER then actual[p] == stored[p]
      else forall seed :: FoundFor(list, b, p, seed) ==> seed == actual[p]
  }

  lemma RecoversAt(list: seq<FallbackEntry>, b: nat, stored: seq<nat>, actual: seq<nat>, p: nat, seed: nat)
    requires Recovers(list, b, stored, actual) && p < |stored|
    requires stored[p] != FALLBACK_MARKER ==> seed == stored[p]
    requires stored[p] == FALLBACK_MARKER ==> FoundFor(list, b, p, seed)
    ensures |stored| == |actual| && seed == actual[p]
  {
    hide FoundFor;
  }

  // Resolves markers if there are any.
  method Resolve(metadata: seq<Byte>, seedStreamOffset: nat, bucketIdx: nat, s0: nat, s1: nat,
                 ghost front: seq<Byte>, ghost list: seq<FallbackEntry>, ghost ok: bool)
    returns (seed0: nat, seed1: nat)
    requires bucketIdx < 0x1_0000
    requires ok ==> EndsInList(metadata, seedStreamOffset, front, list)
    ensures s0 != FALLBACK_MARKER ==> seed0 == s0
    ensures s1 != FALLBACK_MARKER ==> seed1 == s1
    ensures ok && s0 == FALLBACK_MARKER ==> FoundFor(list, bucketIdx, 0, seed0)
    ensures ok && s1 == FALLBACK_MARKER ==> FoundFor(list, bucketIdx, 1, seed1)
  {
    hide FoundFor, FallbackBytes, EntryFits;
    seed0, seed1 := s0, s1;
    if s0 == FALLBACK_MARKER || s1 == FALLBACK_MARKER {
      seed0, seed1 := ResolveFallbackSeeds(metadata, seedStreamOffset, bucketIdx, s0, s1, front, list);
    }
  }

  // The seeds of the bucket at the reader's position, markers resolved.
  method ReadSeeds(br: BitReader, metadata: seq<Byte>, seedStreamOffset: nat, bucketIdx: nat, size: nat,
                   ghost stored: seq<nat>, ghost actual: seq<nat>, ghost front: seq<Byte>, ghost list: seq<FallbackEntry>, ghost ok: bool)
    returns (seeds: seq<nat>)
    requires br.Valid() && bucketIdx < 0x1_0000
    requires ok ==> ReadsAs(br.data, br.Pos(), size, stored) && Recovers(list, bucketIdx, stored, actual)
    requires ok ==> EndsInList(metadata, seedStreamOffset, front, list)
    modifies br
    ensures |seeds| == |PartSizes(size)|
    ensures ok ==> seeds == actual
  {
    hide *;
    PartSizesIs(size);
    if ok { ReadsAsIs(br.data, br.Pos(), size, stored, list, bucketIdx, actual); }
    if size >= SPLIT_THRESHOLD {
      seeds := ReadTwo(br, metadata, seedStreamOffset, bucketIdx, size, stored, actual, front, list, ok);
    } else if size >= 2 {
      var s0 := DecodeGRSeedFast(br, size);
      var seed0, ignored := Resolve(metadata, seedStreamOffset, bucketIdx, s0, 0, front, list, ok);
      if ok { RecoversAt(list, bucketIdx, stored, actual, 0, seed0); }
      seeds := [seed0];
    } else {
      seeds := [];
    }
  }

  // Both seeds of a split bucket.
  method ReadTwo(br: BitReader, metadata: seq<Byte>, seedStreamOffset: nat, bucketIdx: nat, size: nat,
                 ghost stored: seq<nat>, ghost actual: seq<nat>, ghost front: seq<Byte>, ghost list: seq<FallbackEntry>, ghost ok: bool)
    returns (seeds: seq<nat>)
    requires br.Valid() && bucketIdx < 0x1_0000
    requires ok ==> |stored| == |actual| == 2 && Recovers(list, bucketIdx, stored, actual)
    requires ok ==> SeedAt(br.data, br.Pos(), size / 2) == stored[0]
                    && SeedAt(br.data, SkipAt(br.data, br.Pos(), size / 2), size - size / 2) == stored[1]
    requires ok ==> EndsInList(metadata, seedStreamOffset, front, list)
    modifies br
    ensures |seeds| == 2
    ensures ok ==> seeds == actual
  {
    hide *;
    var splitPoint := size / 2;
    var s0 := DecodeGRSeedFast(br, splitPoint);
    var s1 := DecodeGRSeedFast(br, size - splitPoint);
    var seed0, seed1 := Resolve(metadata, seedStreamOffset, bucketIdx, s0, s1, front, list, ok);
    if ok {
      RecoversAt(list, bucketIdx, stored, actual, 0, seed0);
      RecoversAt(list, bucketIdx, stored, actual, 1, seed1);
    }
    seeds := [seed0, seed1];
  }

  lemma PartSizesIs(size: nat)
    ensures SPLIT_THRESHOLD == 8
    ensures |PartSizes(size)| == if size <= 1 then 0 else if size >= SPLIT_THRESHOLD then 2 else 1
  {
  }

  lemma ReadsAsIs(data: seq<Byte>, pos: nat, size: nat, stored: seq<nat>, list: seq<FallbackEntry>, b: nat, actual: seq<nat>)
    requires ReadsAs(data, pos, size, stored) && Recovers(list, b, stored, actual)
    ensures |actual| == |stored| == |PartSizes(size)|
    ensures size >= SPLIT_THRESHOLD ==>
              SeedAt(data, pos, size / 2) == stored[0] && SeedAt(data, SkipAt(data, pos, size / 2), size - size / 2) == stored[1]
    ensures 2 <= size < SPLIT_THRESHOLD ==> SeedAt(data, pos, size) == stored[0]
  {
    hide SeedAt, SkipAt, FoundFor;
  }
}
