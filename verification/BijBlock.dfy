/** A solved bijection block, its metadata bytes, and the query that reads them. */
module BijBlock {
  import opened Basics
  import opened LittleEndian
  import opened Words
  import opened BitIO
  import opened SeedStream
  import opened EliasFano
  import opened BijSpec
  import opened BijMetadata

  const MAX_UINT16 := 0xFFFF

  datatype QueryError = NotFound | CorruptedIndex

  ghost predicate SeedsFit(seeds: seq<nat>, size: nat) {
    |seeds| == |PartSizes(size)| && forall p :: 0 <= p < |seeds| ==> seeds[p] < MAX_EXTENDED_SEED
  }

  // Bucket sizes and the seeds found for each bucket's parts.
  datatype Block = Block(sizes: seq<nat>, seeds: seq<seq<nat>>) {
    function Total(): nat { Sum(sizes, |sizes|) }

    ghost predicate Shaped() {
      |sizes| == |seeds| && forall b :: 0 <= b < |sizes| ==> SeedsFit(seeds[b], sizes[b])
    }

    ghost predicate Valid() {
      && Shaped() && |sizes| == NUM_BUCKETS
      && 0 < Total() <= MAX_UINT16
      && |List()| <= MAX_FALLBACK_ENTRIES
    }

    // The seeds as the stream stores them.
    ghost function StoredAll(): (r: seq<seq<nat>>)
      requires Shaped()
      ensures Matches(sizes, r)
    {
      seq(|sizes|, b requires 0 <= b < |sizes| => StoredSeeds(seeds[b], sizes[b]))
    }

    ghost function List(): seq<FallbackEntry>
      requires Shaped()
    {
      Fallbacks(seeds, sizes, |sizes|)
    }

    ghost function LowBits(): nat { ComputeEFLowBits(NUM_BUCKETS, Total()) }

    ghost function Cum(): (r: seq<nat>)
      ensures |r| == |sizes|
    {
      Cumulative(sizes)
    }

    ghost function SeedBits(): seq<bool>
      requires Shaped()
    {
      Codes(sizes, StoredAll(), |sizes|)
    }

    // Bit positions at the start of bucket b, in the marks and in the seed stream.
    ghost function EFCheckpoint(b: nat): nat
      requires b <= |sizes|
    {
      ScanStart(Cum(), LowBits(), b)
    }

    ghost function SeedCheckpoint(b: nat): nat
      requires Shaped() && b <= |sizes|
    {
      |Codes(sizes, StoredAll(), b)|
    }

    // What the checkpoints store, segment by segment.
    ghost function EFAll(): (r: seq<nat>)
      requires |sizes| == NUM_BUCKETS
      ensures |r| == NUM_CHECKPOINTS
      ensures forall i :: 0 <= i < NUM_CHECKPOINTS ==> r[i] == EFCheckpoint((i + 1) * CHECKPOINT_INTERVAL)
    {
      seq(NUM_CHECKPOINTS, i requires 0 <= i < NUM_CHECKPOINTS => EFCheckpoint((i + 1) * CHECKPOINT_INTERVAL))
    }

    ghost function SeedAll(): (r: seq<nat>)
      requires Shaped() && |sizes| == NUM_BUCKETS
      ensures |r| == NUM_CHECKPOINTS
      ensures forall i :: 0 <= i < NUM_CHECKPOINTS ==> r[i] == SeedCheckpoint((i + 1) * CHECKPOINT_INTERVAL)
    {
      seq(NUM_CHECKPOINTS, i requires 0 <= i < NUM_CHECKPOINTS => SeedCheckpoint((i + 1) * CHECKPOINT_INTERVAL))
    }

    ghost function Checkpoints(): (r: seq<Byte>)
      requires Valid()
      ensures |r| == CHECKPOINTS_SIZE
    {
      Uint16s(EFAll()) + Uint16s(SeedAll())
    }

    // The Elias-Fano section.
    ghost predicate IsEF(ef: seq<Byte>) {
      && |ef| == EliasFanoSize(NUM_BUCKETS, Total())
      && Coded(ef, Cum(), LowBits(), |sizes|)
      && Encodes(ef, Cum(), LowBits())
    }

    // The seed section: the codes, padded with zeros to a whole byte.
    ghost predicate IsSeedStream(ss: seq<Byte>)
      requires Shaped()
    {
      && |ss| == (|SeedBits()| + 7) / 8
      && HasBits(ss, 0, SeedBits())
      && forall p :: |SeedBits()| <= p < 8 * |ss| ==> !StreamBit(ss, p)
    }

    ghost predicate Layout(metadata: seq<Byte>, ef: seq<Byte>, ss: seq<Byte>)
      requires Valid()
    {
      && IsEF(ef) && IsSeedStream(ss)
      && metadata == Checkpoints() + ef + ss + FallbackBytes(List())
    }

    // The bytes a block with these seeds is stored as.
    ghost predicate IsMetadata(metadata: seq<Byte>) {
      Valid() && exists ef, ss :: Layout(metadata, ef, ss)
    }

    // Where bucket b's keys start.
    function Start(b: nat): nat
      requires b <= |sizes|
    {
      Sum(sizes, b)
    }

    // The slot of a key of bucket b.
    ghost function Slot(mix: MixHash, parts: Parts, b: nat): nat
      requires Shaped() && b < |sizes|
    {
      Start(b) + LocalSlot(mix, parts, sizes[b], seeds[b])
    }
  }

  // ---------- Sizes ----------

  lemma {:induction false} LenLess(x: nat, k: nat)
    requires x < Pow2(k)
    ensures Len(x) <= k
  {
    if x > 0 {
      LenLess(x / 2, k - 1);
    }
  }

  lemma HighSmall(U: nat, lowBits: nat)
    requires U < 2048 * Pow2(lowBits)
    ensures Shifted(U, lowBits) < 2048
  {
    QuotientBound(U, lowBits, 2048);
  }

  /** At most five low bits and fewer than 2048 high parts: an Elias-Fano section
      of at most 1024 bytes, and checkpoints that fit in 16 bits. */
  lemma EFBounds(U: nat)
    requires U <= MAX_UINT16
    ensures ComputeEFLowBits(NUM_BUCKETS, U) <= 5
    ensures Shifted(U, ComputeEFLowBits(NUM_BUCKETS, U)) < 2048
    ensures TotalBits(NUM_BUCKETS, U) < 8192 && EliasFanoSize(NUM_BUCKETS, U) <= 1024
  {
    var lowBits := ComputeEFLowBits(NUM_BUCKETS, U);
    assert Pow2(6) == 64 && Pow2(5) == 32 && Pow2(4) == 16 && Pow2(3) == 8 && Pow2(2) == 4 && Pow2(1) == 2 && Pow2(0) == 1;
    if U > NUM_BUCKETS {
      LenLess(U / NUM_BUCKETS, 6);
      LenBounds(U / NUM_BUCKETS);
      assert U / NUM_BUCKETS < Pow2(lowBits + 1) == 2 * Pow2(lowBits);
    }
    assert lowBits <= 5;
    assert U < 2048 * Pow2(lowBits);
    HighSmall(U, lowBits);
    hide Shifted, Pow2, ComputeEFLowBits;
    assert Times(NUM_BUCKETS, lowBits) == NUM_BUCKETS * lowBits <= 5120;
  }

  // The high bits of a block's Elias-Fano section: a mark for every value, and the gaps.
  function HighBits(U: nat): nat { NUM_BUCKETS + HighBound(U, ComputeEFLowBits(NUM_BUCKETS, U)) }

  lemma {:induction false} LenIs(x: nat, k: nat)
    requires Pow2(k) <= x < Pow2(k + 1)
    ensures Len(x) == k + 1
  {
    if k > 0 {
      LenIs(x / 2, k - 1);
    }
  }

  lemma LowBitsAre(U: nat, k: nat)
    requires NUM_BUCKETS * Pow2(k) <= U < NUM_BUCKETS * Pow2(k + 1) && U > NUM_BUCKETS
    ensures ComputeEFLowBits(NUM_BUCKETS, U) == k
  {
    assert Pow2(k) <= U / 1024 < Pow2(k + 1);
    LenIs(U / 1024, k);
  }

  lemma LowBitsBound(U: nat)
    requires U > NUM_BUCKETS
    ensures NUM_BUCKETS * Pow2(ComputeEFLowBits(NUM_BUCKETS, U)) <= U < NUM_BUCKETS * Pow2(ComputeEFLowBits(NUM_BUCKETS, U) + 1)
  {
    LenBounds(U / NUM_BUCKETS);
  }

  lemma HighWithin(U: nat, k: nat)
    ensures Shifted(U, k) <= 1024 <==> U < 1025 * Pow2(k)
  {
    Recombined(U, k);
    var high, unit := Shifted(U, k), Pow2(k);
    if high <= 1024 {
      MulMonotone(high, 1024, unit);
    } else {
      MulMonotone(1025, high, unit);
    }
  }

  // Between 1024 and 1025 times that power.
  ghost predicate Narrow(U: nat, k: nat) { 1024 * Pow2(k) <= U < 1025 * Pow2(k) }

  /** The high bits stay within 2048 exactly if there are at most 1024 keys, or less than a power of
      two more than 1024 times that power. */
  lemma HighBitsFit(U: nat)
    requires U <= MAX_UINT16
    ensures HighBits(U) <= 2048 <==> U <= 1024 || exists k: nat :: k <= 5 && Narrow(U, k)
  {
    EFBounds(U);
    if U > 1024 {
      var lowBits := ComputeEFLowBits(NUM_BUCKETS, U);
      LowBitsBound(U);
      HighWithin(U, lowBits);
      forall k: nat | k <= 5 && Narrow(U, k) ensures k == lowBits {
        LowBitsAre(U, k);
      }
      hide ComputeEFLowBits, Shifted, EliasFanoSize, TotalBits;
      assert HighBits(U) <= 2048 <==> Narrow(U, lowBits);
    }
  }

  /** A block of 1025 keys has more. */
  lemma HighBitsExceed()
    ensures HighBits(1025) == 2049
  {
    LowBitsAre(1025, 0);
  }

  // Every position a checkpoint stores fits in 16 bits.
  lemma CheckpointsFit(B: Block, b: nat)
    requires B.Valid() && b <= NUM_BUCKETS
    ensures B.EFCheckpoint(b) < 0x1_0000 && B.SeedCheckpoint(b) < 0x1_0000
  {
    EFBounds(B.Total());
    CumulativeFacts(B.sizes);
    if b > 0 {
      ShiftedMonotone(B.Cum()[b - 1], B.Total(), B.LowBits());
    }
    CodesLength(B.sizes, B.StoredAll(), b);
    hide Shifted, ComputeEFLowBits, Codes, Cumulative;
  }

  /** Every section stays within its part of the size estimate. */
  lemma MetadataSize(B: Block, metadata: seq<Byte>)
    requires B.IsMetadata(metadata)
    ensures |metadata| <= CHECKPOINTS_SIZE + 1024 + 6144 + 1022
  {
    var ef, ss :| B.Layout(metadata, ef, ss);
    EFBounds(B.Total());
    CodesLength(B.sizes, B.StoredAll(), |B.sizes|);
    hide ComputeEFLowBits, EliasFanoSize, Codes, Coded, Encodes, Shifted;
  }

  // ---------- Determined by the block ----------

  lemma SeedStreamUnique(B: Block, a: seq<Byte>, b: seq<Byte>)
    requires B.Shaped() && B.IsSeedStream(a) && B.IsSeedStream(b)
    ensures a == b
  {
    var bits := B.SeedBits();
    hide ByteBits, Codes;
    forall p | 0 <= p < 8 * |a| ensures Stream(a)[p] == Stream(b)[p] {
      if p < |bits| {
        assert StreamBit(a, 0 + p) == bits[p] == StreamBit(b, 0 + p);
      } else {
        assert !StreamBit(a, p) && !StreamBit(b, p);
      }
    }
    assert Stream(a) == Stream(b);
    StreamInjective(a, b);
  }

  /** A block has one encoding: equal sizes and seeds mean equal bytes. */
  lemma MetadataUnique(B: Block, a: seq<Byte>, b: seq<Byte>)
    requires B.IsMetadata(a) && B.IsMetadata(b)
    ensures a == b
  {
    var ef, ss :| B.Layout(a, ef, ss);
    var ef', ss' :| B.Layout(b, ef', ss');
    CodedUnique(ef, ef', B.Cum(), B.LowBits());
    SeedStreamUnique(B, ss, ss');
  }

  // ---------- Finding the sections ----------

  lemma CheckpointsRead(B: Block, i: nat)
    requires B.Valid() && i < NUM_CHECKPOINTS
    ensures Uint16At(B.Checkpoints(), i) == B.EFCheckpoint((i + 1) * CHECKPOINT_INTERVAL)
    ensures Uint16At(B.Checkpoints(), NUM_CHECKPOINTS + i) == B.SeedCheckpoint((i + 1) * CHECKPOINT_INTERVAL)
  {
    hide *;
    CheckpointsAre(B, i);
    CheckpointsFit(B, (i + 1) * 128);
    Uint16RoundTrip(B.EFAll(), i);
    Uint16RoundTrip(B.SeedAll(), i);
    Uint16Parts(Uint16s(B.EFAll()), Uint16s(B.SeedAll()), i);
  }

  lemma CheckpointsAre(B: Block, i: nat)
    requires B.Valid() && i < NUM_CHECKPOINTS
    ensures B.Shaped() && |B.sizes| == NUM_BUCKETS && NUM_CHECKPOINTS == 7 && CHECKPOINT_INTERVAL == 128 && (i + 1) * 128 <= NUM_BUCKETS
    ensures B.Checkpoints() == Uint16s(B.EFAll()) + Uint16s(B.SeedAll())
  {
    hide Uint16s, Block.EFAll, Block.SeedAll, Block.List, Sum;
  }

  lemma Uint16Parts(a: seq<Byte>, b: seq<Byte>, i: nat)
    requires |a| == |b| == 2 * NUM_CHECKPOINTS && i < NUM_CHECKPOINTS
    ensures Uint16At(a + b, i) == Uint16At(a, i) && Uint16At(a + b, NUM_CHECKPOINTS + i) == Uint16At(b, i)
  {
    assert (a + b)[2 * i..2 * i + 2] == a[2 * i..2 * i + 2];
    assert (a + b)[2 * (NUM_CHECKPOINTS + i)..2 * (NUM_CHECKPOINTS + i) + 2] == b[2 * i..2 * i + 2];
    hide GetLE;
  }

  lemma Uint16Front(a: seq<Byte>, b: seq<Byte>, i: nat)
    requires 2 * i + 2 <= |a|
    ensures Uint16At(a + b, i) == Uint16At(a, i)
  {
    assert (a + b)[2 * i..2 * i + 2] == a[2 * i..2 * i + 2];
  }

  // The sections of a block's metadata, as a query slices them.
  lemma Sections(B: Block, metadata: seq<Byte>, ef: seq<Byte>, ss: seq<Byte>)
    requires B.Valid() && B.Layout(metadata, ef, ss)
    ensures var seedAt := CHECKPOINTS_SIZE + EliasFanoSize(NUM_BUCKETS, B.Total());
            && |metadata| > seedAt + |ss| && |ef| == EliasFanoSize(NUM_BUCKETS, B.Total())
            && metadata[CHECKPOINTS_SIZE..] == ef + (ss + FallbackBytes(B.List()))
            && metadata[seedAt..] == ss + FallbackBytes(B.List())
            && metadata == B.Checkpoints() + ef + ss + FallbackBytes(B.List())
  {
    hide FallbackBytes, EliasFanoSize, Block.Checkpoints, Block.IsSeedStream, Coded, Encodes;
    var tail := FallbackBytes(B.List());
    assert metadata == B.Checkpoints() + (ef + (ss + tail));
  }

  lemma EFBehind(B: Block, ef: seq<Byte>, more: seq<Byte>)
    requires B.Valid() && B.IsEF(ef)
    ensures Encodes(ef + more, B.Cum(), B.LowBits()) && |ef| >= 128
  {
    hide Encodes, Coded, ComputeEFLowBits;
    forall i | 0 <= i < |B.Cum()| ensures Times(i, B.LowBits()) + B.LowBits() <= 8 * |ef| {
      assert Times(i, B.LowBits()) + B.LowBits() == Times(i + 1, B.LowBits());
      MulMonotone(i + 1, NUM_BUCKETS, B.LowBits());
    }
    EncodesExtends(ef, more, B.Cum(), B.LowBits());
  }

  lemma StreamBehind(B: Block, ss: seq<Byte>, more: seq<Byte>)
    requires B.Shaped() && B.IsSeedStream(ss)
    ensures HasBits(ss + more, 0, B.SeedBits())
  {
    hide ByteBits, Codes;
    var bits := B.SeedBits();
    forall p | 0 <= p < |bits| ensures StreamBit(ss + more, 0 + p) == bits[p] {
      assert StreamBit(ss, 0 + p) == bits[p];
      assert (ss + more)[p / 8] == ss[p / 8];
    }
  }
}
