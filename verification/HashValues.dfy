/** What the hash functions of the two algorithms are: laws of theirs, and fixed values that an index
    on disk depends on. */
module HashValues {
  import opened FastRange
  import opened PtrGeometry
  import opened BijGeometry
  import opened BijSpec
  import F = BijPerfect
  import PtrSpec
  import WordMix

  /** The multiplier of a pilot is odd, whatever the pilot and the seed. */
  lemma PilotHashOdd(pilot: bv64, globalSeed: bv64)
    ensures PilotHash(pilot, globalSeed) & 1 == 1
  {
  }

  /** Multipliers of some pilots. */
  lemma PilotHashValues()
    ensures PilotHash(0, 0) == 1
    ensures PilotHash(1, 0) == 0xe94c_59ad_4451_b241
    ensures PilotHash(255, 0) == 0x4c13_2917_89bd_ae17
    ensures PilotHash(42, 12345) == 0x65b8_6742_653e_8c71
  {
  }

  lemma ProductMixed()
    ensures MulHigh(0x123_4567_89AB_CDEF, 0xFEDC_BA98_7654_3210) == 0x121_FA00_AD77_D742
  {
  }

  lemma WymixMixed()
    ensures Wymix(0x123_4567_89AB_CDEF, 0xFEDC_BA98_7654_3210) == 0x2317_228F_4816_5BB2
  {
    hide ToNat, FromNat, MulHigh;
    Literal(0x123_4567_89AB_CDEF);
    Literal(0xFEDC_BA98_7654_3210);
    Literal(0x121_FA00_AD77_D742);
    WordMix.Literals();
    ProductMixed();
  }

  lemma ProductGreatest()
    ensures MulHigh(0xFFFF_FFFF_FFFF_FFFF, 0xFFFF_FFFF_FFFF_FFFF) == 0xFFFF_FFFF_FFFF_FFFE
  {
  }

  lemma WymixGreatest()
    ensures Wymix(0xFFFF_FFFF_FFFF_FFFF, 0xFFFF_FFFF_FFFF_FFFF) == 0xFFFF_FFFF_FFFF_FFFF
  {
    hide ToNat, FromNat, MulHigh;
    Literal(0xFFFF_FFFF_FFFF_FFFF);
    Literal(0xFFFF_FFFF_FFFF_FFFE);
    WordMix.Literals();
    ProductGreatest();
  }

  lemma ProductWide()
    ensures MulHigh(0xDEAD_BEEF_CAFE_BABE, 0x123_4567_89AB_CDEF) == 0xFD_5BDE_EEB2_A01D
  {
  }

  lemma WymixWide()
    ensures Wymix(0xDEAD_BEEF_CAFE_BABE, 0x123_4567_89AB_CDEF) == 0x7E4B_D22A_04F6_DD7F
  {
    hide ToNat, FromNat, MulHigh;
    Literal(0xDEAD_BEEF_CAFE_BABE);
    Literal(0x123_4567_89AB_CDEF);
    Literal(0xFD_5BDE_EEB2_A01D);
    WordMix.Literals();
    ProductWide();
  }

  lemma Literal(x: bv64)
    ensures ToNat(x) == x as nat && FromNat(x as nat) == x
  {
  }

  /** The 128-bit multiply and fold on words the repository pins, since an index built with another
      fold could not be read. */
  lemma WymixValues()
    ensures Wymix(0x123_4567_89AB_CDEF, 0xFEDC_BA98_7654_3210) == 0x2317_228F_4816_5BB2
    ensures Wymix(0xFFFF_FFFF_FFFF_FFFF, 0xFFFF_FFFF_FFFF_FFFF) == 0xFFFF_FFFF_FFFF_FFFF
    ensures Wymix(0xDEAD_BEEF_CAFE_BABE, 0x123_4567_89AB_CDEF) == 0x7E4B_D22A_04F6_DD7F
  {
    hide *;
    WymixMixed();
    WymixGreatest();
    WymixWide();
  }

  // ---------- The buckets of PTRHash ----------

  lemma MulHighMonotone(a: nat, b: nat, c: nat, d: nat)
    requires a <= c && b <= d
    ensures MulHigh(a, b) <= MulHigh(c, d)
  {
    assert a * b <= c * b <= c * d;
  }

  lemma CubicEpsMonotone(v: nat, w: nat)
    requires v <= w < TWO64
    ensures CubicEps(v) <= CubicEps(w)
  {
    MulHighMonotone(v, v, w, w);
    MulHighMonotone(MulHigh(v, v), v / 2 + 0x8000_0000_0000_0000, MulHigh(w, w), w / 2 + 0x8000_0000_0000_0000);
    hide MulHigh;
  }

  /** Larger inputs reach no earlier bucket. */
  lemma BucketsMonotone(x: bv64, y: bv64, numBuckets: nat)
    requires ToNat(x) <= ToNat(y)
    ensures CubicEpsBucket(x, numBuckets) <= CubicEpsBucket(y, numBuckets)
  {
    hide ToNat, CubicEps, MulHigh;
    CubicEpsMonotone(ToNat(x), ToNat(y));
    MulHighMonotone(CubicEps(ToNat(x)), numBuckets, CubicEps(ToNat(y)), numBuckets);
  }

  lemma SquareOfGreatest()
    ensures MulHigh(0xFFFF_FFFF_FFFF_FFFF, 0xFFFF_FFFF_FFFF_FFFF) == 0xFFFF_FFFF_FFFF_FFFE
    ensures MulHigh(0xFFFF_FFFF_FFFF_FFFE, 0xFFFF_FFFF_FFFF_FFFF) == 0xFFFF_FFFF_FFFF_FFFD
  {
  }

  lemma CubicEpsEnds()
    ensures CubicEps(0) == 0
    ensures CubicEps(0xFFFF_FFFF_FFFF_FFFF) == 0xFFFF_FFFF_FFFF_FF00
  {
    SquareOfGreatest();
    MulHighZero();
    hide MulHigh;
  }

  lemma MulHighZero()
    ensures forall b: nat :: MulHigh(0, b) == 0
  {
  }

  lemma LastBucket(n: nat)
    requires 0 < n <= 0x100_0000_0000_0000
    ensures FastRange32(0xFFFF_FFFF_FFFF_FF00, n) == n - 1
  {
    QuotientUnique(0xFFFF_FFFF_FFFF_FF00 * n, n - 1);
  }

  /** The least input goes to the first bucket, the greatest to the last. */
  lemma BucketEnds(numBuckets: nat)
    requires 0 < numBuckets <= 0x100_0000_0000_0000
    ensures CubicEpsBucket(0, numBuckets) == 0
    ensures CubicEpsBucket(0xFFFF_FFFF_FFFF_FFFF, numBuckets) == numBuckets - 1
  {
    hide ToNat, CubicEps, FastRange32;
    WordMix.Literals();
    Literal(0);
    Literal(0xFFFF_FFFF_FFFF_FFFF);
    CubicEpsEnds();
    LastBucket(numBuckets);
    FastRangeZero(numBuckets);
  }

  lemma FastRangeZero(n: nat)
    ensures FastRange32(0, n) == 0
  {
  }

  // A number as a fraction of 2^64.
  function Fraction(v: nat): real { v as real / 18446744073709551616.0 }

  // The distribution of keys over buckets: x^2 * (1 + x) / 2 * 255 / 256 + x / 256.
  function Cubic(x: real): real { x * x * (1.0 + x) / 2.0 * 255.0 / 256.0 + x / 256.0 }

  lemma ProductFraction(a: nat, b: nat)
    ensures Fraction(MulHigh(a, b)) <= Times(Fraction(a), Fraction(b)) < Fraction(MulHigh(a, b)) + Fraction(1)
  {
    var t, p := 18446744073709551616.0, MulHigh(a, b);
    QuotientIs(a * b);
    assert p as real * t <= a as real * b as real < (p as real + 1.0) * t;
    assert Fraction(a) * Fraction(b) == (a as real * b as real) / t / t;
  }

  lemma HalfFraction(v: nat)
    ensures Fraction(v / 2 + 0x8000_0000_0000_0000) <= (1.0 + Fraction(v)) / 2.0 <= Fraction(v / 2 + 0x8000_0000_0000_0000) + Fraction(1) / 2.0
  {
  }

  function Times(x: real, y: real): real { x * y }

  lemma Commute(x: real, y: real)
    ensures Times(x, y) == Times(y, x)
  {
  }

  lemma TimesKeeps(k: real, x: real, y: real)
    requires 0.0 <= k && x <= y
    ensures Times(k, x) <= Times(k, y)
  {
  }

  lemma Spread(y: real, b: real, f: real)
    ensures Times(y, b + f) == Times(y, b) + Times(y, f)
  {
  }

  lemma Shrunk(y: real, f: real)
    requires y <= 1.0 && 0.0 <= f
    ensures Times(y, f) <= f
  {
  }

  lemma StepRight(y: real, h: real, b: real, f: real)
    requires 0.0 <= y <= 1.0 && 0.0 <= f && h <= b + f
    ensures Times(y, h) <= Times(y, b) + f
  {
    hide Times;
    TimesKeeps(y, h, b + f);
    Spread(y, b, f);
    Shrunk(y, f);
  }

  lemma Bracket(y: real, h: real, a: real, b: real, d: real, e: real)
    requires 0.0 <= y <= 1.0 && 0.0 <= a && 0.0 <= b <= 1.0 && 0.0 < e
    requires a <= y < a + e
    requires b <= h <= b + e / 2.0
    requires d <= Times(a, b) < d + e
    ensures d <= Times(y, h) < d + 2.5 * e
  {
    hide Times;
    TimesKeeps(b, a, y);
    TimesKeeps(y, b, h);
    StepRight(y, h, b, e / 2.0);
    StepRight(b, y, a, e);
    Commute(a, b);
    Commute(y, b);
  }

  lemma UnitSquare(x: real)
    requires 0.0 <= x < 1.0
    ensures 0.0 <= Times(x, x) <= 1.0
  {
    assert x * x <= 1.0 * x;
  }

  // The cube before it is scaled down.
  function Cube(v: nat): nat { MulHigh(MulHigh(v, v), v / 2 + 0x8000_0000_0000_0000) }

  lemma InUnit(v: nat)
    requires v < TWO64
    ensures 0.0 <= Fraction(v) < 1.0
  {
  }

  lemma CubeFraction(v: nat)
    requires v < TWO64
    ensures Fraction(Cube(v)) <= Times(Times(Fraction(v), Fraction(v)), (1.0 + Fraction(v)) / 2.0) < Fraction(Cube(v)) + 2.5 * Fraction(1)
  {
    hide MulHigh, Times, Fraction;
    var half := v / 2 + 0x8000_0000_0000_0000;
    MulHighBelow(v, v);
    ProductFraction(v, v);
    ProductFraction(MulHigh(v, v), half);
    HalfFraction(v);
    InUnit(v);
    InUnit(MulHigh(v, v));
    InUnit(half);
    Unit();
    UnitSquare(Fraction(v));
    Bracket(Times(Fraction(v), Fraction(v)), (1.0 + Fraction(v)) / 2.0, Fraction(MulHigh(v, v)), Fraction(half), Fraction(Cube(v)), Fraction(1));
  }

  lemma ScaledFraction(c: nat, v: nat)
    ensures Fraction(c / 256 * 255 + v / 256) <= Fraction(c) * 255.0 / 256.0 + Fraction(v) / 256.0
    ensures Fraction(c) * 255.0 / 256.0 + Fraction(v) / 256.0 <= Fraction(c / 256 * 255 + v / 256) + 255.0 * Fraction(1)
  {
  }

  /** The fixed-point arithmetic is the distribution the source states, x^2 (1 + x) / 2 * 255 / 256 +
      x / 256, to within 258 units of 2^-64, and never above it. */
  lemma CubicEpsIsCubic(v: nat)
    requires v < TWO64
    ensures Fraction(CubicEps(v)) <= Cubic(Fraction(v)) < Fraction(CubicEps(v)) + 258.0 * Fraction(1)
  {
    hide MulHigh, Fraction, Times, Cubic;
    CubeFraction(v);
    ScaledFraction(Cube(v), v);
    Unit();
    CubicIs(Fraction(v), Times(Times(Fraction(v), Fraction(v)), (1.0 + Fraction(v)) / 2.0));
  }

  lemma Unit()
    ensures Fraction(1) > 0.0
  {
  }

  lemma CubicIs(x: real, y: real)
    requires y == Times(Times(x, x), (1.0 + x) / 2.0)
    ensures Cubic(x) == y * 255.0 / 256.0 + x / 256.0
  {
    assert x * x * (1.0 + x) / 2.0 == y;
  }

  // ---------- Slots of fixed keys ----------

  lemma PilotSlotLands()
    ensures FastRange32(0x5e59_1b5c_a7de_a408, 40000) == 14741
  {
  }

  lemma FoldValue()
    ensures Fold(0x0123_4567_89AB_CDEF) == 0x0123_4567_8888_8888
  {
  }

  lemma FoldedLands()
    ensures PilotSlotFolded(0x0123_4567_8888_8888, 0x65b8_6742_653e_8c71, 40000) == 14741
  {
    hide ToNat, FastRange32;
    PilotSlotLands();
    WordMix.Literals();
    Literal(0x5e59_1b5c_a7de_a408);
  }

  lemma PilotIs()
    ensures (42 % 256) as bv64 == 42
  {
  }

  /** The slot of one input, under one pilot and one seed. */
  lemma PilotSlotValue()
    ensures PilotSlot(0x0123_4567_89AB_CDEF, 42, 40000, 12345) == 14741
  {
    hide Fold, PilotHash, PilotSlotFolded;
    PilotIs();
    FoldValue();
    PilotHashValues();
    FoldedLands();
  }

  lemma MixLands()
    ensures FastRange32(0x7E4B_D22A_04F6_DD7F, 1000) == 493
  {
  }

  /** The slots of one key under two seeds. */
  lemma MixValues()
    ensures MixFromParts(Parts(0xDEAD_BEEF_CAFE_BABE, 0x0123_4567_89AB_CDEF), 0, 1000) == 493
    ensures MixFromParts(Parts(0xDEAD_BEEF_CAFE_BAB9, 0x0123_4567_89AB_CDEF), 7, 1000) == 493
  {
    hide ToNat, FastRange32, Wymix, FromNat;
    WymixValues();
    MixLands();
    WordMix.Literals();
    Literal(0);
    Literal(7);
    Literal(0x7E4B_D22A_04F6_DD7F);
  }

  // ---------- Keys in the geometries of the code ----------

  lemma InputValue()
    ensures PtrSpec.SlotInput(0xFEDC_BA98_7654_3210, 0xFFFF_FFFF_FFFF_FFFF) == 0x0123_4567_89AB_CDEF
  {
  }

  /** PTRHash under one seed: the slot of a key, from both words, and its bucket among 10000, from the
      second. */
  lemma PtrKeyPlaced(numSlotsOf: nat -> nat)
    ensures var g := PtrGeometry.SourceGeometry(12345, numSlotsOf);
            && g.hash(PtrSpec.SlotInput(0xFEDC_BA98_7654_3210, 0xFFFF_FFFF_FFFF_FFFF), 42, 40000) == 14741
            && g.numBuckets == 10000 && g.bucketOf(0xFFFF_FFFF_FFFF_FFFF) == 9999 && g.bucketOf(0) == 0
  {
    hide PilotSlot, CubicEpsBucket, PtrSpec.SlotInput;
    InputValue();
    PilotSlotValue();
    BucketEnds(10000);
  }

  lemma BucketLands()
    ensures FastRange32(0xDEAD_BEEF_CAFE_BAB9, 1024) == 890
    ensures FastRange32(0xFFFF_FFFF_FFFF_FFFF, 1024) == 1023
  {
  }

  lemma SeedMixed()
    ensures F.Mixed(0xDEAD_BEEF_CAFE_BAB9, 7) == 0xDEAD_BEEF_CAFE_BABE
    ensures F.Mixed(0x0123_4567_89AB_CDE8, 7) == 0x0123_4567_89AB_CDEF
  {
  }

  /** Bijection under one seed: both words of a key are mixed with it, its bucket is chosen among 1024
      by its first word as it was, and its slot is the one above. */
  lemma BijKeyPlaced()
    ensures var g := BijGeometry.SourceGeometry(7);
            && g.PartsOf(0xDEAD_BEEF_CAFE_BAB9, 0x0123_4567_89AB_CDE8) == Parts(0xDEAD_BEEF_CAFE_BABE, 0x0123_4567_89AB_CDEF)
            && g.bucketOf(0xDEAD_BEEF_CAFE_BAB9) == 890 && g.bucketOf(0xFFFF_FFFF_FFFF_FFFF) == 1023
            && g.mix(g.PartsOf(0xDEAD_BEEF_CAFE_BAB9, 0x0123_4567_89AB_CDE8), 0, 1000) == 493
  {
    hide MixFromParts, FastRange32, ToNat, F.Mixed;
    SeedMixed();
    MixValues();
    BucketLands();
    WordMix.Literals();
    Literal(0xDEAD_BEEF_CAFE_BAB9);
    Literal(0xFFFF_FFFF_FFFF_FFFF);
  }
}
