/** The hash and bucket functions PTRHash uses, and that they stay in range. */
module PtrGeometry {
  import opened FastRange
  import opened PtrSpec
  import opened PtrBlock

  function PilotHash(pilot: bv64, globalSeed: bv64): bv64 {
    var x0: bv64 := 0x517cc1b727220a95 * (pilot ^ globalSeed);
    var x1 := x0 ^ (x0 >> 30);
    var x2 := x1 * 0xbf58476d1ce4e5b9;
    var x3 := x2 ^ (x2 >> 27);
    var x4 := x3 * 0x94d049bb133111eb;
    (x4 ^ (x4 >> 31)) | 1
  }

  function Fold(h: bv64): bv64 { h ^ (h >> 32) }

  // The slot of a folded input under a pilot's multiplier.
  function PilotSlotFolded(folded: bv64, multiplier: bv64, numSlots: nat): (r: nat)
    ensures numSlots > 0 ==> r < numSlots
  {
    hide ToNat, FastRange32;
    FastRange32(ToNat(folded * multiplier), numSlots)
  }

  // The slot of a slot input under a pilot.
  function PilotSlot(input: bv64, pilot: nat, numSlots: nat, globalSeed: bv64): (r: nat)
    ensures numSlots > 0 ==> r < numSlots
  {
    hide Fold, PilotHash, PilotSlotFolded;
    PilotSlotFolded(Fold(input), PilotHash((pilot % 256) as bv64, globalSeed), numSlots)
  }

  // x^2 * (1 + x) / 2 * 255/256 + x/256 in 64-bit fixed point.
  function CubicEps(v: nat): (r: nat)
    requires v < TWO64
    ensures r < TWO64
  {
    MulHighBound(v, v);
    var square := MulHigh(v, v);
    var half := v / 2 + 0x8000_0000_0000_0000;
    MulHighBound(square, half);
    var cubic := MulHigh(square, half);
    hide MulHigh;
    cubic / 256 * 255 + v / 256
  }

  function CubicEpsBucket(x: bv64, numBuckets: nat): (r: nat)
    ensures numBuckets > 0 ==> r < numBuckets
  {
    hide ToNat, CubicEps, FastRange32;
    if numBuckets <= 1 then 0 else FastRange32(CubicEps(ToNat(x)), numBuckets)
  }

  const BUCKETS_PER_BLOCK := 10000

  // The geometry of a build: its seed, and the slot count for each key count.
  function SourceGeometry(globalSeed: bv64, numSlotsOf: nat -> nat): Geometry {
    Geometry((x, p, n) => PilotSlot(x, p, n, globalSeed), x => CubicEpsBucket(x, BUCKETS_PER_BLOCK),
             numSlotsOf, BUCKETS_PER_BLOCK)
  }

  /** The functions the builder and decoder share meet what the theorems assume of
      them, for every seed. */
  lemma SourceGeometryValid(globalSeed: bv64, numSlotsOf: nat -> nat)
    requires forall n: nat :: n <= numSlotsOf(n)
    ensures SourceGeometry(globalSeed, numSlotsOf).Valid()
  {
    hide PilotSlot, CubicEpsBucket;
    var g := SourceGeometry(globalSeed, numSlotsOf);
    forall x, p, n | n > 0 ensures g.hash(x, p, n) < n {
      assert g.hash(x, p, n) == PilotSlot(x, p, n, globalSeed);
    }
    forall x ensures g.bucketOf(x) < g.numBuckets {
      assert g.bucketOf(x) == CubicEpsBucket(x, BUCKETS_PER_BLOCK);
    }
  }
}
