/** The mix and bucket functions the bijection algorithm uses, and that they stay in
    range. */
module BijGeometry {
  import opened FastRange
  import opened BijSpec
  import opened BijMetadata
  import opened BijPerfect

  // High and low word of the 128-bit product, XORed.
  function Wymix(a: bv64, b: bv64): bv64 {
    hide ToNat;
    MulHighBelow(ToNat(a), ToNat(b));
    FromNat(MulHigh(ToNat(a), ToNat(b))) ^ (a * b)
  }

  function MixFromParts(parts: Parts, seed: nat, bucketSize: nat): (r: nat)
    ensures bucketSize > 0 ==> r < bucketSize
    ensures bucketSize <= 1 ==> r == 0
  {
    hide ToNat, Wymix, FastRange32;
    if bucketSize <= 1 then 0
    else FastRange32(ToNat(Wymix(parts.x0 ^ FromNat(seed % 0x1_0000_0000), parts.x1)), bucketSize)
  }

  // The geometry of a build, from its global seed.
  function SourceGeometry(globalSeed: bv64): Geometry {
    Geometry((x, s, n) => MixFromParts(x, s, n), x => FastRange32(ToNat(x), NUM_BUCKETS), globalSeed)
  }

  /** The functions the builder and decoder share meet what the theorems assume of
      them, for every seed. */
  lemma SourceGeometryValid(globalSeed: bv64)
    ensures SourceGeometry(globalSeed).Valid()
  {
    hide MixFromParts, FastRange32, ToNat;
    var g := SourceGeometry(globalSeed);
    forall x, s: nat, n: nat ensures (n > 0 ==> g.mix(x, s, n) < n) && (n <= 1 ==> g.mix(x, s, n) == 0) {
      assert g.mix(x, s, n) == MixFromParts(x, s, n);
    }
    forall x ensures g.bucketOf(x) < NUM_BUCKETS {
      assert g.bucketOf(x) == FastRange32(ToNat(x), NUM_BUCKETS);
    }
  }
}
