/** The Golomb-Rice coded seed stream of a bijection block: one code per seed, a
    run of 16 ones for a seed kept in the fallback list, nothing for buckets of at
    most one key. */
module SeedStream {
  import opened Basics
  import opened Words
  import opened BitIO

  const SPLIT_THRESHOLD := 8
  const FALLBACK_MARKER: nat := 0xFFFF_FFFF
  const GOLOMB_TABLE: seq<nat> := [0, 0, 1, 2, 3, 4, 5, 7, 8]

  function GolombParameter(bucketSize: nat): (k: nat)
    ensures k <= 8
  {
    if bucketSize < |GOLOMB_TABLE| then GOLOMB_TABLE[bucketSize] else 8
  }

  // The exclusive bound on seeds that have a code; 0 when none has.
  function MaxEncodableSeed(bucketSize: nat): nat {
    var k := GolombParameter(bucketSize);
    if k == 0 then 0 else GR_MAX_QUOTIENT * Pow2(k)
  }

  /** The seeds that have a code, by the size of the bucket or part. */
  lemma EncodableSeeds(bucketSize: nat)
    ensures bucketSize == 2 ==> MaxEncodableSeed(bucketSize) == 32
    ensures bucketSize == 3 ==> MaxEncodableSeed(bucketSize) == 64
    ensures bucketSize == 4 ==> MaxEncodableSeed(bucketSize) == 128
    ensures bucketSize == 5 ==> MaxEncodableSeed(bucketSize) == 256
    ensures bucketSize == 6 ==> MaxEncodableSeed(bucketSize) == 512
    ensures bucketSize == 7 ==> MaxEncodableSeed(bucketSize) == 2048
    ensures bucketSize >= 8 ==> MaxEncodableSeed(bucketSize) == 4096
  {
    Pow2Table();
    hide Pow2;
  }

  lemma Pow2Table()
    ensures Pow2(1) == 2 && Pow2(2) == 4 && Pow2(3) == 8 && Pow2(4) == 16 && Pow2(5) == 32 && Pow2(7) == 128 && Pow2(8) == 256
  {
    assert Pow2(4) == 16;
    assert Pow2(6) == 64;
  }

  // ---------- One code ----------

  // Quotient in unary, remainder in k bits; 16 ones when the quotient is too large.
  function Code(seed: nat, bucketSize: nat): seq<bool> {
    var k := GolombParameter(bucketSize);
    if bucketSize <= 1 then []
    else if Shifted(seed, k) >= GR_MAX_QUOTIENT || bucketSize > 8 then Ones(GR_MAX_QUOTIENT)
    else Ones(Shifted(seed, k)) + [false] + ToBits(seed, k)
  }

  predicate HasCode(seed: nat, bucketSize: nat) {
    2 <= bucketSize <= 8 && Shifted(seed, GolombParameter(bucketSize)) < GR_MAX_QUOTIENT
  }

  // A code is at most 24 bits.
  lemma CodeLength(seed: nat, bucketSize: nat)
    ensures |Code(seed, bucketSize)| <= 24
  {
  }

  lemma {:induction false} Recombined(v: nat, k: nat)
    ensures Shifted(v, k) * Pow2(k) + ToNat(ToBits(v, k)) == v
  {
    if k > 0 {
      Recombined(v / 2, k - 1);
      assert ToBits(v, k)[1..] == ToBits(v / 2, k - 1);
      Doubled(Shifted(v / 2, k - 1), Pow2(k - 1));
    }
  }

  lemma Doubled(a: nat, p: nat)
    ensures a * (2 * p) == 2 * (a * p)
  {
  }

  lemma QuotientBound(v: nat, k: nat, q: nat)
    requires v < q * Pow2(k)
    ensures Shifted(v, k) < q
  {
    Recombined(v, k);
    if Shifted(v, k) >= q {
      MulMonotone(q, Shifted(v, k), Pow2(k));
    }
  }

  lemma MulMonotone(a: nat, b: nat, m: nat)
    requires a <= b
    ensures a * m <= b * m
  {
  }

  // Every seed below the bound has a code.
  lemma EncodableHasCode(seed: nat, bucketSize: nat)
    requires 2 <= bucketSize <= 8 && seed < MaxEncodableSeed(bucketSize)
    ensures HasCode(seed, bucketSize)
  {
    QuotientBound(seed, GolombParameter(bucketSize), GR_MAX_QUOTIENT);
  }

  // ---------- Reading one code ----------

  // Where the code at pos ends.
  function SkipAt(data: seq<Byte>, pos: nat, bucketSize: nat): nat {
    if bucketSize <= 1 then pos
    else
      var q := UnaryAt(data, pos, GR_MAX_QUOTIENT);
      if q >= GR_MAX_QUOTIENT then pos + GR_MAX_QUOTIENT else pos + q + 1 + GolombParameter(bucketSize)
  }

  // q << k | r
  function Combined(q: nat, k: nat, r: nat): nat { q * Pow2(k) + r }

  // The seed coded at pos, or the fallback marker.
  function SeedAt(data: seq<Byte>, pos: nat, bucketSize: nat): nat {
    if bucketSize <= 1 then 0
    else
      var q := UnaryAt(data, pos, GR_MAX_QUOTIENT);
      if q >= GR_MAX_QUOTIENT then FALLBACK_MARKER
      else
        var k := GolombParameter(bucketSize);
        Combined(q, k, ToNat(BitsAt(data, pos + q + 1, k)))
  }

  ghost predicate HasBits(data: seq<Byte>, pos: nat, bits: seq<bool>) {
    forall i :: 0 <= i < |bits| ==> StreamBit(data, pos + i) == bits[i]
  }

  lemma HasBitsParts(data: seq<Byte>, pos: nat, a: seq<bool>, b: seq<bool>)
    requires HasBits(data, pos, a + b)
    ensures HasBits(data, pos, a) && HasBits(data, pos + |a|, b)
  {
    hide StreamBit;
    forall i | 0 <= i < |a| ensures StreamBit(data, pos + i) == a[i] {
      assert (a + b)[i] == a[i];
    }
    forall i | 0 <= i < |b| ensures StreamBit(data, pos + |a| + i) == b[i] {
      assert (a + b)[|a| + i] == b[i];
      assert StreamBit(data, pos + (|a| + i)) == b[i];
    }
  }

  lemma OnesRead(data: seq<Byte>, pos: nat, q: nat, max: nat)
    requires HasBits(data, pos, Ones(q)) && q <= max
    requires q < max ==> !StreamBit(data, pos + q)
    ensures UnaryAt(data, pos, max) == q
  {
    hide StreamBit;
    forall i | pos <= i < pos + q ensures StreamBit(data, i) {
      assert StreamBit(data, pos + (i - pos)) == Ones(q)[i - pos];
    }
    UnaryIs(data, pos, max, q);
  }

  /** Reading a code gives back its seed, or the marker for a seed without a code,
      and ends where the code ends. */
  lemma CodeRead(data: seq<Byte>, pos: nat, seed: nat, bucketSize: nat)
    requires bucketSize >= 2 && HasBits(data, pos, Code(seed, bucketSize))
    ensures SkipAt(data, pos, bucketSize) == pos + |Code(seed, bucketSize)|
    ensures SeedAt(data, pos, bucketSize) == if HasCode(seed, bucketSize) then seed else FALLBACK_MARKER
  {
    hide *;
    CodeShape(seed, bucketSize);
    ReadShape(data, pos, bucketSize);
    if HasCode(seed, bucketSize) {
      var k := GolombParameter(bucketSize);
      CodeReadParts(data, pos, Shifted(seed, k), seed, k);
      CombinedIs(seed, k);
    } else {
      OnesRead(data, pos, GR_MAX_QUOTIENT, GR_MAX_QUOTIENT);
    }
  }

  lemma CodeShape(seed: nat, bucketSize: nat)
    requires bucketSize >= 2
    ensures var k := GolombParameter(bucketSize);
            && (HasCode(seed, bucketSize) ==>
                  && Shifted(seed, k) < GR_MAX_QUOTIENT
                  && Code(seed, bucketSize) == Ones(Shifted(seed, k)) + ([false] + ToBits(seed, k)))
            && (!HasCode(seed, bucketSize) ==> Code(seed, bucketSize) == Ones(GR_MAX_QUOTIENT))
  {
    hide ToBits, Shifted;
  }

  lemma ReadShape(data: seq<Byte>, pos: nat, bucketSize: nat)
    requires bucketSize >= 2
    ensures var q, k := UnaryAt(data, pos, GR_MAX_QUOTIENT), GolombParameter(bucketSize);
            && SkipAt(data, pos, bucketSize) == (if q >= GR_MAX_QUOTIENT then pos + GR_MAX_QUOTIENT else pos + q + 1 + k)
            && SeedAt(data, pos, bucketSize) ==
               if q >= GR_MAX_QUOTIENT then FALLBACK_MARKER else Combined(q, k, ToNat(BitsAt(data, pos + q + 1, k)))
  {
    hide UnaryAt, Combined, ToNat, GolombParameter;
  }

  lemma CombinedIs(seed: nat, k: nat)
    ensures Combined(Shifted(seed, k), k, ToNat(ToBits(seed, k))) == seed
  {
    Recombined(seed, k);
  }

  lemma CodeReadParts(data: seq<Byte>, pos: nat, q: nat, seed: nat, k: nat)
    requires HasBits(data, pos, Ones(q) + ([false] + ToBits(seed, k))) && q < GR_MAX_QUOTIENT
    ensures UnaryAt(data, pos, GR_MAX_QUOTIENT) == q && BitsAt(data, pos + q + 1, k) == ToBits(seed, k)
  {
    hide ToBits, StreamBit, UnaryAt, Ones;
    var r := ToBits(seed, k);
    HasBitsParts(data, pos, Ones(q), [false] + r);
    HasBitsParts(data, pos + q, [false], r);
    assert StreamBit(data, pos + q + 0) == [false][0];
    OnesRead(data, pos, q, GR_MAX_QUOTIENT);
    BitsRead(data, pos + q + 1, r);
  }

  lemma BitsRead(data: seq<Byte>, pos: nat, bits: seq<bool>)
    requires HasBits(data, pos, bits)
    ensures BitsAt(data, pos, |bits|) == bits
  {
    hide StreamBit;
  }

  // ---------- A whole stream ----------

  // The sizes whose seeds a bucket stores: two halves from the threshold on.
  function PartSizes(bucketSize: nat): seq<nat> {
    if bucketSize <= 1 then []
    else if bucketSize >= SPLIT_THRESHOLD then [bucketSize / 2, bucketSize - bucketSize / 2]
    else [bucketSize]
  }

  // The code of what is stored for a part: its seed, or the marker.
  function StoredCode(stored: nat, partSize: nat): seq<bool> {
    if stored == FALLBACK_MARKER then Ones(GR_MAX_QUOTIENT) else Code(stored, partSize)
  }

  function BucketCode(stored: seq<nat>, bucketSize: nat): seq<bool>
    requires |stored| == |PartSizes(bucketSize)|
  {
    if bucketSize <= 1 then []
    else if bucketSize >= SPLIT_THRESHOLD then
      StoredCode(stored[0], bucketSize / 2) + StoredCode(stored[1], bucketSize - bucketSize / 2)
    else StoredCode(stored[0], bucketSize)
  }

  ghost predicate Matches(sizes: seq<nat>, stored: seq<seq<nat>>) {
    |stored| == |sizes| && forall b :: 0 <= b < |sizes| ==> |stored[b]| == |PartSizes(sizes[b])|
  }

  // The codes of the first n buckets.
  function Codes(sizes: seq<nat>, stored: seq<seq<nat>>, n: nat): seq<bool>
    requires Matches(sizes, stored) && n <= |sizes|
  {
    if n == 0 then [] else Codes(sizes, stored, n - 1) + BucketCode(stored[n - 1], sizes[n - 1])
  }

  lemma BucketCodeLength(stored: seq<nat>, bucketSize: nat)
    requires |stored| == |PartSizes(bucketSize)|
    ensures |BucketCode(stored, bucketSize)| <= 48
  {
    if 1 < bucketSize < SPLIT_THRESHOLD {
      CodeLength(stored[0], bucketSize);
    } else if bucketSize > 1 {
      CodeLength(stored[0], bucketSize / 2);
      CodeLength(stored[1], bucketSize - bucketSize / 2);
    }
    hide Code;
  }

  // At most 48 bits a bucket.
  lemma {:induction false} CodesLength(sizes: seq<nat>, stored: seq<seq<nat>>, n: nat)
    requires Matches(sizes, stored) && n <= |sizes|
    ensures |Codes(sizes, stored, n)| <= 48 * n
  {
    if n > 0 {
      CodesLength(sizes, stored, n - 1);
      BucketCodeLength(stored[n - 1], sizes[n - 1]);
    }
  }

  lemma {:induction false} CodesPrefix(sizes: seq<nat>, stored: seq<seq<nat>>, m: nat, n: nat)
    requires Matches(sizes, stored) && m <= n <= |sizes|
    ensures |Codes(sizes, stored, m)| <= |Codes(sizes, stored, n)|
    ensures Codes(sizes, stored, n)[..|Codes(sizes, stored, m)|] == Codes(sizes, stored, m)
    decreases n
  {
    if m < n {
      CodesPrefix(sizes, stored, m, n - 1);
      hide BucketCode;
    }
  }

  // The code of bucket b sits behind those of the buckets before it.
  lemma BucketCodeAt(data: seq<Byte>, sizes: seq<nat>, stored: seq<seq<nat>>, b: nat)
    requires Matches(sizes, stored) && b < |sizes|
    requires HasBits(data, 0, Codes(sizes, stored, |sizes|))
    ensures HasBits(data, |Codes(sizes, stored, b)|, BucketCode(stored[b], sizes[b]))
    ensures |Codes(sizes, stored, b + 1)| == |Codes(sizes, stored, b)| + |BucketCode(stored[b], sizes[b])|
  {
    hide *;
    var all := Codes(sizes, stored, |sizes|);
    var upTo := Codes(sizes, stored, b + 1);
    CodesPrefix(sizes, stored, b + 1, |sizes|);
    CodesStep(sizes, stored, b);
    PrefixRest(all, upTo);
    HasBitsParts(data, 0, upTo, all[|upTo|..]);
    HasBitsParts(data, 0, Codes(sizes, stored, b), BucketCode(stored[b], sizes[b]));
  }

  lemma CodesStep(sizes: seq<nat>, stored: seq<seq<nat>>, b: nat)
    requires Matches(sizes, stored) && b < |sizes|
    ensures |stored| == |sizes| && |stored[b]| == |PartSizes(sizes[b])|
    ensures Codes(sizes, stored, b + 1) == Codes(sizes, stored, b) + BucketCode(stored[b], sizes[b])
  {
    hide BucketCode;
  }

  lemma PrefixRest(all: seq<bool>, prefix: seq<bool>)
    requires |prefix| <= |all| && all[..|prefix|] == prefix
    ensures all == prefix + all[|prefix|..]
  {
  }

  // Seeds as a block stores them: coded if they have a code, else the marker.
  ghost predicate Codable(stored: seq<nat>, bucketSize: nat) {
    && |stored| == |PartSizes(bucketSize)|
    && forall p :: 0 <= p < |stored| ==> stored[p] == FALLBACK_MARKER || HasCode(stored[p], PartSizes(bucketSize)[p])
  }

  // Skipping a bucket, part by part.
  function SkipBucketAt(data: seq<Byte>, pos: nat, bucketSize: nat): nat {
    if bucketSize >= SPLIT_THRESHOLD then
      SkipAt(data, SkipAt(data, pos, bucketSize / 2), bucketSize - bucketSize / 2)
    else if bucketSize >= 2 then SkipAt(data, pos, bucketSize)
    else pos
  }

  lemma StoredRead(data: seq<Byte>, pos: nat, stored: nat, partSize: nat)
    requires partSize >= 2 && HasBits(data, pos, StoredCode(stored, partSize))
    requires stored == FALLBACK_MARKER || HasCode(stored, partSize)
    ensures SkipAt(data, pos, partSize) == pos + |StoredCode(stored, partSize)|
    ensures SeedAt(data, pos, partSize) == stored
  {
    if stored == FALLBACK_MARKER {
      OnesRead(data, pos, GR_MAX_QUOTIENT, GR_MAX_QUOTIENT);
    } else {
      CodeRead(data, pos, stored, partSize);
    }
  }

  /** On any mix of empty, direct, split and fallback buckets: skipping a bucket
      lands behind its codes, and reading it gives what is stored. */
  lemma BucketRead(data: seq<Byte>, pos: nat, stored: seq<nat>, bucketSize: nat)
    requires Codable(stored, bucketSize) && HasBits(data, pos, BucketCode(stored, bucketSize))
    ensures SkipBucketAt(data, pos, bucketSize) == pos + |BucketCode(stored, bucketSize)|
    ensures bucketSize >= SPLIT_THRESHOLD ==>
              && SeedAt(data, pos, bucketSize / 2) == stored[0]
              && SeedAt(data, SkipAt(data, pos, bucketSize / 2), bucketSize - bucketSize / 2) == stored[1]
    ensures 2 <= bucketSize < SPLIT_THRESHOLD ==> SeedAt(data, pos, bucketSize) == stored[0]
  {
    hide SkipAt, SeedAt, StoredCode, HasCode, HasBits;
    if bucketSize >= SPLIT_THRESHOLD {
      var first, second := bucketSize / 2, bucketSize - bucketSize / 2;
      HasBitsParts(data, pos, StoredCode(stored[0], first), StoredCode(stored[1], second));
      StoredRead(data, pos, stored[0], first);
      StoredRead(data, pos + |StoredCode(stored[0], first)|, stored[1], second);
    } else if bucketSize >= 2 {
      StoredRead(data, pos, stored[0], bucketSize);
    }
  }

  // ---------- Encoding ----------

  method EncodeSeed(bw: BitWriter, seed: nat, bucketSize: nat)
    requires bw.Valid() && seed < 0x1_0000_0000
    modifies bw
    ensures bw.Valid() && bw.written == old(bw.written) + Code(seed, bucketSize)
  {
    ghost var before := bw.written;
    if bucketSize <= 1 {
      assert before + [] == before;
      return;
    }
    var k := GolombParameter(bucketSize);
    var q := Shifted(seed, k);
    hide GolombParameter, Shifted, ToBits, BitWriter.Valid;
    if q >= GR_MAX_QUOTIENT || bucketSize > 8 {
      bw.WriteOnes(GR_MAX_QUOTIENT);
      return;
    }
    if q > 0 {
      bw.WriteOnes(q);
    } else {
      assert before + Ones(0) == before;
    }
    bw.WriteBit(false);
    if k > 0 {
      BitPrefix(seed, k, 64);
      bw.WriteBits(ToBits(seed, 64), k);
    }
    assert bw.written == before + (Ones(q) + [false] + ToBits(seed, k));
  }

  method EncodeFallbackMarker(bw: BitWriter)
    requires bw.Valid()
    modifies bw
    ensures bw.Valid() && bw.written == old(bw.written) + Ones(GR_MAX_QUOTIENT)
  {
    bw.WriteOnes(GR_MAX_QUOTIENT);
  }

  method EncodeStored(bw: BitWriter, stored: nat, partSize: nat)
    requires bw.Valid() && stored < 0x1_0000_0000
    modifies bw
    ensures bw.Valid() && bw.written == old(bw.written) + StoredCode(stored, partSize)
  {
    if stored == FALLBACK_MARKER {
      EncodeFallbackMarker(bw);
    } else {
      EncodeSeed(bw, stored, partSize);
    }
  }

  // ---------- Decoding ----------

  // Skips one seed.
  method SkipSeed(br: BitReader, partSize: nat)
    requires br.Valid() && partSize > 1
    modifies br
    ensures br.Valid() && br.Pos() == SkipAt(br.data, old(br.Pos()), partSize)
  {
    hide BitReader.Valid, UnaryAt;
    var q := br.ReadUnaryMax16();
    if q < GR_MAX_QUOTIENT {
      var k := GolombParameter(partSize);
      if k > 0 {
        br.SkipBits(k);
      }
    }
  }

  method SkipBucket(br: BitReader, bucketSize: nat)
    requires br.Valid()
    modifies br
    ensures br.Valid() && br.Pos() == SkipBucketAt(br.data, old(br.Pos()), bucketSize)
  {
    hide SkipAt, BitReader.Valid;
    if bucketSize >= SPLIT_THRESHOLD {
      var splitPoint := bucketSize / 2;
      var secondHalfSize := bucketSize - splitPoint;
      if splitPoint > 1 {
        SkipSeed(br, splitPoint);
      }
      if secondHalfSize > 1 {
        SkipSeed(br, secondHalfSize);
      }
    } else if bucketSize >= 2 {
      SkipSeed(br, bucketSize);
    }
  }

  lemma PositiveParameter(bucketSize: nat)
    requires bucketSize >= 2
    ensures 0 < GolombParameter(bucketSize)
  {
  }

  lemma PartialValue(w: Word, bits: seq<bool>)
    requires Partial(w, bits)
    ensures w[..|bits|] == bits
  {
  }

  // Decodes one seed or the marker.
  method DecodeGRSeedFast(br: BitReader, bucketSize: nat) returns (seed: nat)
    requires br.Valid()
    modifies br
    ensures br.Valid() && br.Pos() == SkipAt(br.data, old(br.Pos()), bucketSize)
    ensures seed == SeedAt(br.data, old(br.Pos()), bucketSize)
  {
    if bucketSize <= 1 {
      return 0;
    }
    PositiveParameter(bucketSize);
    hide *;
    ReadShape(br.data, br.Pos(), bucketSize);
    var q := br.ReadUnaryMax16();
    if q >= GR_MAX_QUOTIENT {
      return FALLBACK_MARKER;
    }
    var k := GolombParameter(bucketSize);
    var r := 0;
    if k > 0 {
      ghost var at := br.Pos();
      var w := br.ReadBits(k);
      PartialValue(w, BitsAt(br.data, at, k));
      r := ToNat(w[..k]);
    }
    seed := Combined(q, k, r);
  }
}
