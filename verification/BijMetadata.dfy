/** The metadata of a bijection block: checkpoints, Elias-Fano data, seed stream and
    fallback list, and how a query finds its way into each of them. */
module BijMetadata {
  import opened Basics
  import opened LittleEndian
  import opened Words
  import opened BitIO
  import opened SeedStream
  import opened Encoding
  import opened EliasFano
  import opened BijSpec

  const NUM_BUCKETS := 1024
  const CHECKPOINT_INTERVAL := 128
  const NUM_CHECKPOINTS := 7
  const CHECKPOINTS_SIZE := 28
  const MAX_FALLBACK_ENTRIES := 255
  const COMPACT_FALLBACK_ENTRY_SIZE := 4

  // ---------- Cumulative sizes ----------

  function Sum(sizes: seq<nat>, n: nat): nat
    requires n <= |sizes|
  {
    if n == 0 then 0 else Sum(sizes, n - 1) + sizes[n - 1]
  }

  lemma SumStart(sizes: seq<nat>)
    ensures Sum(sizes, 0) == 0
  {
  }

  lemma SumNext(sizes: seq<nat>, i: nat)
    requires i < |sizes|
    ensures Sum(sizes, i + 1) == Sum(sizes, i) + sizes[i]
  {
  }

  lemma {:induction false} SumMonotone(sizes: seq<nat>, m: nat, n: nat)
    requires m <= n <= |sizes|
    ensures Sum(sizes, m) <= Sum(sizes, n)
    decreases n
  {
    if m < n {
      SumMonotone(sizes, m, n - 1);
    }
  }

  // Value i is the number of keys in buckets 0 .. i.
  function Cumulative(sizes: seq<nat>): (r: seq<nat>)
    ensures |r| == |sizes| && forall i :: 0 <= i < |r| ==> r[i] == Sum(sizes, i + 1)
  {
    seq(|sizes|, i requires 0 <= i < |sizes| => Sum(sizes, i + 1))
  }

  lemma CumulativeFacts(sizes: seq<nat>)
    ensures forall i :: 0 <= i < |sizes| ==> Cumulative(sizes)[i] <= Sum(sizes, |sizes|)
    ensures forall i :: 0 < i < |sizes| ==> Cumulative(sizes)[i - 1] <= Cumulative(sizes)[i]
  {
    forall i | 0 <= i < |sizes| ensures Cumulative(sizes)[i] <= Sum(sizes, |sizes|) {
      SumMonotone(sizes, i + 1, |sizes|);
    }
    forall i | 0 < i < |sizes| ensures Cumulative(sizes)[i - 1] <= Cumulative(sizes)[i] {
      SumMonotone(sizes, i, i + 1);
    }
  }

  // ---------- The fallback list ----------

  // bucketIndex << 22 | subBucket << 21 | seed
  function PackEntry(e: FallbackEntry): nat {
    e.bucketIndex * 0x40_0000 + (e.subBucket % 2) * 0x20_0000 + e.seed % 0x20_0000
  }

  function UnpackEntry(packed: nat): FallbackEntry {
    FallbackEntry(packed / 0x40_0000 % 0x400, packed / 0x20_0000 % 2, packed % 0x20_0000)
  }

  ghost predicate EntryFits(e: FallbackEntry) {
    e.bucketIndex < NUM_BUCKETS && e.subBucket < 2 && e.seed < MAX_EXTENDED_SEED
  }

  lemma HighField(hi: nat, lo: nat, width: nat)
    requires 0 < width && lo < width
    ensures (hi * width + lo) / width == hi && (hi * width + lo) % width == lo
  {
    DivUnique(hi * width + lo, width, hi, lo);
  }

  lemma UnpackPacked(e: FallbackEntry)
    requires EntryFits(e)
    ensures UnpackEntry(PackEntry(e)) == e && PackEntry(e) < 0x1_0000_0000
  {
    FieldsApart(e.bucketIndex, e.subBucket, e.seed);
  }

  lemma FieldsApart(bucket: nat, sub: nat, seed: nat)
    requires bucket < 0x400 && sub < 2 && seed < 0x20_0000
    ensures var packed := bucket * 0x40_0000 + sub * 0x20_0000 + seed;
            packed / 0x40_0000 == bucket && packed / 0x20_0000 % 2 == sub && packed % 0x20_0000 == seed && packed < 0x1_0000_0000
  {
    HighField(bucket, sub * 0x20_0000 + seed, 0x40_0000);
    HighField(2 * bucket + sub, seed, 0x20_0000);
  }

  // The validation byte: the count XOR 0x55, which flips every second bit.
  function Check(count: Byte): (r: Byte)
    ensures forall i :: 0 <= i < 8 ==> ByteBits(r)[i] == (ByteBits(count)[i] != (i % 2 == 0))
  {
    hide ByteBits;
    ByteOf(seq(8, i requires 0 <= i < 8 => ByteBits(count)[i] != (i % 2 == 0)))
  }

  lemma ByteBitsInjective(a: Byte, b: Byte)
    requires ByteBits(a) == ByteBits(b)
    ensures a == b
  {
    assert Pow2(8) == 256;
    ToNatToBits(a, 8);
    ToNatToBits(b, 8);
  }

  lemma CheckInjective(a: Byte, b: Byte)
    ensures Check(a) == Check(b) <==> a == b
  {
    hide Check, ByteBits;
    if Check(a) == Check(b) {
      forall i | 0 <= i < 8 ensures ByteBits(a)[i] == ByteBits(b)[i] {
        assert ByteBits(Check(a))[i] == ByteBits(Check(b))[i];
      }
      ByteBitsInjective(a, b);
    }
  }

  function EntriesBytes(list: seq<FallbackEntry>): (r: seq<Byte>)
    ensures |r| == COMPACT_FALLBACK_ENTRY_SIZE * |list|
  {
    if |list| == 0 then []
    else EntriesBytes(list[..|list| - 1]) + PutLE(PackEntry(list[|list| - 1]), COMPACT_FALLBACK_ENTRY_SIZE)
  }

  // Count, entries, validation byte.
  function FallbackBytes(list: seq<FallbackEntry>): (r: seq<Byte>)
    requires |list| <= MAX_FALLBACK_ENTRIES
    ensures |r| == 2 + COMPACT_FALLBACK_ENTRY_SIZE * |list|
  {
    [|list|] + EntriesBytes(list) + [Check(|list|)]
  }

  function DecodeEntry(data: seq<Byte>, i: nat): FallbackEntry
    requires 5 + 4 * i <= |data|
  {
    UnpackEntry(GetLE(data[1 + 4 * i..5 + 4 * i]))
  }

  function DecodeFallbackList(data: seq<Byte>): seq<FallbackEntry> {
    if |data| < 2 then []
    else
      var count: nat := data[0];
      if count == 0 || |data| < 2 + 4 * count then []
      else seq(count, i requires 0 <= i < count => DecodeEntry(data, i))
  }

  lemma {:induction false} EntryBytesAt(list: seq<FallbackEntry>, i: nat)
    requires i < |list|
    ensures EntriesBytes(list)[4 * i..4 * i + 4] == PutLE(PackEntry(list[i]), 4)
  {
    var n := |list| - 1;
    hide PackEntry, PutLE;
    if i < n {
      EntryBytesAt(list[..n], i);
      assert EntriesBytes(list)[..4 * n] == EntriesBytes(list[..n]);
      assert EntriesBytes(list)[4 * i..4 * i + 4] == EntriesBytes(list)[..4 * n][4 * i..4 * i + 4];
    } else {
      assert EntriesBytes(list)[4 * n..] == PutLE(PackEntry(list[n]), 4);
    }
  }

  // The list is read back as it was written.
  lemma FallbackRoundTrip(list: seq<FallbackEntry>)
    requires |list| <= MAX_FALLBACK_ENTRIES && forall e :: e in list ==> EntryFits(e)
    ensures DecodeFallbackList(FallbackBytes(list)) == list
  {
    var data := FallbackBytes(list);
    assert data[0] == |list|;
    hide FallbackBytes, PackEntry, UnpackEntry, EntryFits, EntriesBytes, Check;
    forall i | 0 <= i < |list| ensures DecodeEntry(data, i) == list[i] {
      EntryDecoded(list, i);
    }
  }

  lemma EntryDecoded(list: seq<FallbackEntry>, i: nat)
    requires |list| <= MAX_FALLBACK_ENTRIES && i < |list| && EntryFits(list[i])
    ensures DecodeEntry(FallbackBytes(list), i) == list[i]
  {
    hide EntriesBytes, PackEntry, UnpackEntry, PutLE, GetLE, Check, EntryFits, ByteBits;
    EntryBytesAt(list, i);
    UnpackPacked(list[i]);
    FourBytes(PackEntry(list[i]));
    assert FallbackBytes(list)[1 + 4 * i..5 + 4 * i] == EntriesBytes(list)[4 * i..4 * i + 4];
  }

  lemma FourBytes(v: nat)
    requires v < 0x1_0000_0000
    ensures GetLE(PutLE(v, 4)) == v
  {
    assert Pow256(4) == 0x1_0000_0000;
    GetPut(v, 4);
  }

  // An offset at which the bytes to the end look like a fallback list.
  predicate LooksLikeList(metadata: seq<Byte>, at: nat)
    requires at < |metadata|
  {
    2 + metadata[at] * COMPACT_FALLBACK_ENTRY_SIZE == |metadata| - at && metadata[|metadata| - 1] == Check(metadata[at])
  }

  /** The validation byte fixes the count and so the offset: after any bytes at all,
      only the true start of the list looks like one. */
  lemma ListFound(front: seq<Byte>, list: seq<FallbackEntry>, at: nat)
    requires |list| <= MAX_FALLBACK_ENTRIES && at < |front + FallbackBytes(list)|
    ensures LooksLikeList(front + FallbackBytes(list), at) <==> at == |front|
  {
    var metadata := front + FallbackBytes(list);
    assert metadata[|metadata| - 1] == Check(|list|) && metadata[|front|] == |list|;
    CheckInjective(metadata[at], |list|);
    hide FallbackBytes, Check;
  }

  // The scan backward from the end.
  method FindFallbackList(metadata: seq<Byte>, seedStreamOffset: nat) returns (found: bool, offset: nat)
    ensures found ==> seedStreamOffset <= offset < |metadata| && LooksLikeList(metadata, offset)
    ensures !found ==> forall at :: seedStreamOffset <= at && |metadata| - 1022 <= at && 0 <= at <= |metadata| - 2 ==>
              !LooksLikeList(metadata, at)
  {
    hide LooksLikeList;
    var tryOffset := |metadata| - 2;
    while tryOffset >= seedStreamOffset && tryOffset >= |metadata| - (2 + MAX_FALLBACK_ENTRIES * COMPACT_FALLBACK_ENTRY_SIZE)
      invariant tryOffset <= |metadata| - 2
      invariant forall at :: seedStreamOffset <= at && tryOffset < at && 0 <= at <= |metadata| - 2 ==> !LooksLikeList(metadata, at)
      decreases tryOffset
    {
      if LooksLikeList(metadata, tryOffset) {
        return true, tryOffset;
      }
      tryOffset := tryOffset - 1;
    }
    return false, 0;
  }

  // The first entry for a part replaces its marker.
  method LookUp(list: seq<FallbackEntry>, bucketIdx: nat, s0: nat, s1: nat) returns (seed0: nat, seed1: nat)
    requires bucketIdx < 0x1_0000
    ensures s0 != FALLBACK_MARKER ==> seed0 == s0
    ensures s1 != FALLBACK_MARKER ==> seed1 == s1
    ensures s0 == FALLBACK_MARKER ==> FoundFor(list, bucketIdx, 0, seed0)
    ensures s1 == FALLBACK_MARKER ==> FoundFor(list, bucketIdx, 1, seed1)
  {
    seed0, seed1 := s0, s1;
    for i := 0 to |list|
      invariant s0 != FALLBACK_MARKER ==> seed0 == s0
      invariant s1 != FALLBACK_MARKER ==> seed1 == s1
      invariant s0 == FALLBACK_MARKER ==> FoundFor(list[..i], bucketIdx, 0, seed0)
      invariant s1 == FALLBACK_MARKER ==> FoundFor(list[..i], bucketIdx, 1, seed1)
    {
      assert list[..i + 1] == list[..i] + [list[i]];
      if list[i].bucketIndex == bucketIdx {
        if list[i].subBucket == 0 && seed0 == FALLBACK_MARKER {
          seed0 := list[i].seed;
        } else if list[i].subBucket == 1 && seed1 == FALLBACK_MARKER {
          seed1 := list[i].seed;
        }
      }
    }
    assert list[..|list|] == list;
  }

  // The seed of some entry of that part, or the marker if it has none.
  ghost predicate FoundFor(list: seq<FallbackEntry>, b: nat, p: nat, seed: nat) {
    || FallbackEntry(b, p, seed) in list
    || (seed == FALLBACK_MARKER && forall e :: e in list ==> !(e.bucketIndex == b && e.subBucket == p))
  }

  /** Resolves markers by the list at the end of the metadata. */
  method ResolveFallbackSeeds(metadata: seq<Byte>, seedStreamOffset: nat, bucketIdx: nat, s0: nat, s1: nat,
                              ghost front: seq<Byte>, ghost list: seq<FallbackEntry>)
    returns (seed0: nat, seed1: nat)
    requires bucketIdx < 0x1_0000
    ensures s0 != FALLBACK_MARKER ==> seed0 == s0
    ensures s1 != FALLBACK_MARKER ==> seed1 == s1
    ensures |list| <= MAX_FALLBACK_ENTRIES && metadata == front + FallbackBytes(list) && seedStreamOffset <= |front|
            && (forall e :: e in list ==> EntryFits(e)) ==>
              && (s0 == FALLBACK_MARKER ==> FoundFor(list, bucketIdx, 0, seed0))
              && (s1 == FALLBACK_MARKER ==> FoundFor(list, bucketIdx, 1, seed1))
  {
    var found, offset := FindFallbackList(metadata, seedStreamOffset);
    ghost var wellFormed := |list| <= MAX_FALLBACK_ENTRIES && metadata == front + FallbackBytes(list) && seedStreamOffset <= |front|
                            && forall e :: e in list ==> EntryFits(e);
    if wellFormed {
      ListFound(front, list, |front|);
      if found {
        ListFound(front, list, offset);
        assert metadata[offset..] == FallbackBytes(list);
        FallbackRoundTrip(list);
      }
    }
    hide *;
    if !found {
      return s0, s1;
    }
    seed0, seed1 := LookUp(DecodeFallbackList(metadata[offset..]), bucketIdx, s0, s1);
  }

  // ---------- Checkpoints ----------

  function Uint16s(values: seq<nat>): (r: seq<Byte>)
    ensures |r| == 2 * |values|
  {
    if |values| == 0 then [] else Uint16s(values[..|values| - 1]) + PutLE(values[|values| - 1], 2)
  }

  function Uint16At(buf: seq<Byte>, i: nat): nat
    requires 2 * i + 2 <= |buf|
  {
    GetLE(buf[2 * i..2 * i + 2])
  }

  lemma {:induction false} Uint16RoundTrip(values: seq<nat>, i: nat)
    requires i < |values| && values[i] < 0x1_0000
    ensures Uint16At(Uint16s(values), i) == values[i]
  {
    var n := |values| - 1;
    if i < n {
      Uint16RoundTrip(values[..n], i);
      hide PutLE, GetLE;
      assert Uint16s(values)[2 * i..2 * i + 2] == Uint16s(values[..n])[2 * i..2 * i + 2];
    } else {
      assert Pow256(2) == 0x1_0000;
      GetPut(values[n], 2);
      assert Uint16s(values)[2 * n..2 * n + 2] == PutLE(values[n], 2);
    }
  }
}
