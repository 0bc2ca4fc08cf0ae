/** What the bijection solver computes: for each bucket the least seeds that give
    its keys distinct slots. */
module BijSpec {
  import opened Basics
  import opened Words
  import opened SeedStream

  // The halves of a key mixed with the global seed.
  datatype Parts = Parts(x0: bv64, x1: bv64)

  datatype Entry = Entry(parts: Parts, payload: nat, fingerprint: nat)

  // parts, seed, bucket size -> slot
  type MixHash = (Parts, nat, nat) -> nat

  datatype Error = DuplicateKey | IndistinguishableHashes | SplitBucketSeedSearchFailed | BlockOverflow
                 | PositionOverflow | BufferTooSmall

  const SPLIT_BUCKET_MAX_SEED: nat := 0x10_0000
  const MAX_EXTENDED_SEED: nat := 0x20_0000

  // A slot of a bucket is below its size; a single key gets slot 0.
  ghost predicate InRange(mix: MixHash) {
    forall x, s: nat, n: nat :: (n > 0 ==> mix(x, s, n) < n) && (n <= 1 ==> mix(x, s, n) == 0)
  }

  function SlotsUnder(mix: MixHash, bucket: seq<Entry>, seed: nat, size: nat): seq<nat> {
    Map((e: Entry) => mix(e.parts, seed, size), bucket)
  }

  ghost predicate Separates(mix: MixHash, bucket: seq<Entry>, seed: nat) {
    NoDup(SlotsUnder(mix, bucket, seed, |bucket|))
  }

  // The least seed in [from, max) under which the bucket's slots are distinct.
  ghost function LeastSeed(mix: MixHash, bucket: seq<Entry>, from: nat, max: nat): (r: Option<nat>)
    ensures r.Some? ==> from <= r.value < max && Separates(mix, bucket, r.value)
    ensures r.Some? ==> forall s :: from <= s < r.value ==> !Separates(mix, bucket, s)
    ensures r.None? ==> forall s :: from <= s < max ==> !Separates(mix, bucket, s)
    decreases max - from
  {
    if from >= max then None
    else if Separates(mix, bucket, from) then Some(from)
    else LeastSeed(mix, bucket, from + 1, max)
  }

  function PartsOf(bucket: seq<Entry>): seq<Parts> {
    Map((e: Entry) => e.parts, bucket)
  }

  ghost predicate HasDuplicate(bucket: seq<Entry>) {
    !NoDup(PartsOf(bucket))
  }

  // ---------- Splitting ----------

  // The entries hashed below, respectively at or above, the split point.
  function FirstHalf(mix: MixHash, bucket: seq<Entry>, seed: nat, size: nat, split: nat): seq<Entry> {
    if |bucket| == 0 then []
    else
      var last := bucket[|bucket| - 1];
      FirstHalf(mix, bucket[..|bucket| - 1], seed, size, split)
      + if mix(last.parts, seed, size) < split then [last] else []
  }

  function SecondHalf(mix: MixHash, bucket: seq<Entry>, seed: nat, size: nat, split: nat): seq<Entry> {
    if |bucket| == 0 then []
    else
      var last := bucket[|bucket| - 1];
      SecondHalf(mix, bucket[..|bucket| - 1], seed, size, split)
      + if mix(last.parts, seed, size) < split then [] else [last]
  }

  // The first half fills [0, split) exactly.
  ghost predicate Splits(mix: MixHash, bucket: seq<Entry>, seed: nat) {
    var size, split := |bucket|, |bucket| / 2;
    var first := FirstHalf(mix, bucket, seed, size, split);
    |first| == split && NoDup(SlotsUnder(mix, first, seed, size))
  }

  // The least seed in [from, max) that splits the bucket.
  ghost function LeastSplit(mix: MixHash, bucket: seq<Entry>, from: nat, max: nat): (r: Option<nat>)
    ensures r.Some? ==> from <= r.value < max && Splits(mix, bucket, r.value)
    ensures r.Some? ==> forall s :: from <= s < r.value ==> !Splits(mix, bucket, s)
    ensures r.None? ==> forall s :: from <= s < max ==> !Splits(mix, bucket, s)
    decreases max - from
  {
    if from >= max then None
    else if Splits(mix, bucket, from) then Some(from)
    else LeastSplit(mix, bucket, from + 1, max)
  }

  // ---------- One bucket ----------

  // The seed of a part of at least two keys.
  ghost function PartSeed(mix: MixHash, part: seq<Entry>): Result<nat, Error> {
    if HasDuplicate(part) then Err(DuplicateKey)
    else
      match LeastSeed(mix, part, 0, MAX_EXTENDED_SEED)
      case Some(s) => Ok(s)
      case None => Err(IndistinguishableHashes)
  }

  // The seeds of a bucket, one per part.
  ghost function BucketSeeds(mix: MixHash, bucket: seq<Entry>): (r: Result<seq<nat>, Error>)
    ensures r.Ok? ==> |r.value| == |PartSizes(|bucket|)|
  {
    var size := |bucket|;
    if size <= 1 then Ok([])
    else if size >= SPLIT_THRESHOLD then
      match LeastSplit(mix, bucket, 0, SPLIT_BUCKET_MAX_SEED)
      case None => Err(if HasDuplicate(bucket) then DuplicateKey else SplitBucketSeedSearchFailed)
      case Some(seed0) =>
        match PartSeed(mix, SecondHalf(mix, bucket, seed0, size, size / 2))
        case Err(e) => Err(e)
        case Ok(seed1) => Ok([seed0, seed1])
    else
      match PartSeed(mix, bucket)
      case Err(e) => Err(e)
      case Ok(seed) => Ok([seed])
  }

  // What goes into the seed stream for a seed: itself if it has a code, else the marker.
  function StoredSeed(seed: nat, partSize: nat): (r: nat)
    ensures 2 <= partSize ==> r == FALLBACK_MARKER || HasCode(r, partSize)
    ensures seed < FALLBACK_MARKER ==> r <= FALLBACK_MARKER
  {
    if partSize <= 8 && seed < MaxEncodableSeed(partSize) then
      if 2 <= partSize then EncodableHasCode(seed, partSize); seed else seed
    else FALLBACK_MARKER
  }

  // ---------- Where keys go ----------

  // The slot of a key within its bucket.
  function LocalSlot(mix: MixHash, parts: Parts, size: nat, seeds: seq<nat>): nat
    requires |seeds| == |PartSizes(size)|
  {
    if size <= 1 then 0
    else if size >= SPLIT_THRESHOLD then
      var split := size / 2;
      var h := mix(parts, seeds[0], size);
      if h < split then h else split + mix(parts, seeds[1], size - split)
    else mix(parts, seeds[0], size)
  }

  lemma LocalSlotInRange(mix: MixHash, parts: Parts, size: nat, seeds: seq<nat>)
    requires InRange(mix) && size > 0 && |seeds| == |PartSizes(size)|
    ensures LocalSlot(mix, parts, size, seeds) < size
  {
  }

  // Position i lands in one of the halves, after the earlier positions of that half.
  lemma {:induction false} HalvesAt(mix: MixHash, bucket: seq<Entry>, seed: nat, size: nat, split: nat, i: nat)
    requires i < |bucket|
    ensures mix(bucket[i].parts, seed, size) < split ==>
              var p := |FirstHalf(mix, bucket[..i], seed, size, split)|;
              p < |FirstHalf(mix, bucket, seed, size, split)| && FirstHalf(mix, bucket, seed, size, split)[p] == bucket[i]
    ensures mix(bucket[i].parts, seed, size) >= split ==>
              var p := |SecondHalf(mix, bucket[..i], seed, size, split)|;
              p < |SecondHalf(mix, bucket, seed, size, split)| && SecondHalf(mix, bucket, seed, size, split)[p] == bucket[i]
  {
    var n := |bucket| - 1;
    if i < n {
      HalvesAt(mix, bucket[..n], seed, size, split, i);
      assert bucket[..n][..i] == bucket[..i];
    }
  }

  lemma {:induction false} HalvesSize(mix: MixHash, bucket: seq<Entry>, seed: nat, size: nat, split: nat)
    ensures |FirstHalf(mix, bucket, seed, size, split)| + |SecondHalf(mix, bucket, seed, size, split)| == |bucket|
  {
    if |bucket| > 0 {
      HalvesSize(mix, bucket[..|bucket| - 1], seed, size, split);
    }
  }

  // Two positions of the same half keep their order in it.
  lemma HalvesApart(mix: MixHash, bucket: seq<Entry>, seed: nat, size: nat, split: nat, i: nat, j: nat)
    requires i < j < |bucket|
    ensures mix(bucket[i].parts, seed, size) < split ==>
              |FirstHalf(mix, bucket[..i], seed, size, split)| < |FirstHalf(mix, bucket[..j], seed, size, split)|
    ensures mix(bucket[i].parts, seed, size) >= split ==>
              |SecondHalf(mix, bucket[..i], seed, size, split)| < |SecondHalf(mix, bucket[..j], seed, size, split)|
  {
    HalvesAt(mix, bucket[..j], seed, size, split, i);
    assert bucket[..j][..i] == bucket[..i];
  }

  lemma PartSeparated(mix: MixHash, part: seq<Entry>)
    ensures PartSeed(mix, part).Ok? ==> Separates(mix, part, PartSeed(mix, part).value)
  {
  }

  /** The two-seed argument: below the split point the splitting seed itself places
      the keys, above it the second seed does, and the halves do not meet. */
  lemma SplitSlotsDiffer(mix: MixHash, bucket: seq<Entry>, seed0: nat, seed1: nat, i: nat, j: nat)
    requires InRange(mix) && |bucket| >= SPLIT_THRESHOLD && i < j < |bucket|
    requires Splits(mix, bucket, seed0)
    requires Separates(mix, SecondHalf(mix, bucket, seed0, |bucket|, |bucket| / 2), seed1)
    ensures LocalSlot(mix, bucket[i].parts, |bucket|, [seed0, seed1]) != LocalSlot(mix, bucket[j].parts, |bucket|, [seed0, seed1])
  {
    var size, split := |bucket|, |bucket| / 2;
    HalvesSize(mix, bucket, seed0, size, split);
    var second := SecondHalf(mix, bucket, seed0, size, split);
    assert |FirstHalf(mix, bucket, seed0, size, split)| == split;
    FirstDiffer(mix, bucket, seed0, i, j);
    SecondDiffer(mix, bucket, seed0, seed1, i, j);
    var h, h' := mix(bucket[i].parts, seed0, size), mix(bucket[j].parts, seed0, size);
    var x, x' := mix(bucket[i].parts, seed1, size - split), mix(bucket[j].parts, seed1, size - split);
    LocalSlotSplit(mix, bucket[i].parts, size, seed0, seed1);
    LocalSlotSplit(mix, bucket[j].parts, size, seed0, seed1);
    hide *;
  }

  lemma LocalSlotSplit(mix: MixHash, parts: Parts, size: nat, seed0: nat, seed1: nat)
    requires size >= SPLIT_THRESHOLD
    ensures |[seed0, seed1]| == |PartSizes(size)|
    ensures LocalSlot(mix, parts, size, [seed0, seed1]) ==
            var h := mix(parts, seed0, size);
            if h < size / 2 then h else size / 2 + mix(parts, seed1, size - size / 2)
  {
  }

  lemma FirstDiffer(mix: MixHash, bucket: seq<Entry>, seed: nat, i: nat, j: nat)
    requires i < j < |bucket| && Splits(mix, bucket, seed)
    ensures var size, split := |bucket|, |bucket| / 2;
            mix(bucket[i].parts, seed, size) < split && mix(bucket[j].parts, seed, size) < split ==>
              mix(bucket[i].parts, seed, size) != mix(bucket[j].parts, seed, size)
  {
    var size, split := |bucket|, |bucket| / 2;
    HalvesAt(mix, bucket, seed, size, split, i);
    HalvesAt(mix, bucket, seed, size, split, j);
    HalvesApart(mix, bucket, seed, size, split, i, j);
    var slots := SlotsUnder(mix, FirstHalf(mix, bucket, seed, size, split), seed, size);
    assert NoDup(slots);
    hide FirstHalf, SecondHalf;
  }

  lemma SecondDiffer(mix: MixHash, bucket: seq<Entry>, seed0: nat, seed1: nat, i: nat, j: nat)
    requires i < j < |bucket|
    requires Separates(mix, SecondHalf(mix, bucket, seed0, |bucket|, |bucket| / 2), seed1)
    requires |SecondHalf(mix, bucket, seed0, |bucket|, |bucket| / 2)| == |bucket| - |bucket| / 2
    ensures var size, split := |bucket|, |bucket| / 2;
            mix(bucket[i].parts, seed0, size) >= split && mix(bucket[j].parts, seed0, size) >= split ==>
              mix(bucket[i].parts, seed1, size - split) != mix(bucket[j].parts, seed1, size - split)
  {
    var size, split := |bucket|, |bucket| / 2;
    HalvesAt(mix, bucket, seed0, size, split, i);
    HalvesAt(mix, bucket, seed0, size, split, j);
    HalvesApart(mix, bucket, seed0, size, split, i, j);
    var slots := SlotsUnder(mix, SecondHalf(mix, bucket, seed0, size, split), seed1, size - split);
    assert NoDup(slots);
    hide FirstHalf, SecondHalf;
  }

  /** The seeds the solver settles on give the bucket's keys distinct slots. */
  lemma BucketSlotsDiffer(mix: MixHash, bucket: seq<Entry>, i: nat, j: nat)
    requires InRange(mix) && i < j < |bucket| && BucketSeeds(mix, bucket).Ok?
    ensures LocalSlot(mix, bucket[i].parts, |bucket|, BucketSeeds(mix, bucket).value)
         != LocalSlot(mix, bucket[j].parts, |bucket|, BucketSeeds(mix, bucket).value)
  {
    var seeds := BucketSeeds(mix, bucket).value;
    if |bucket| >= SPLIT_THRESHOLD {
      var second := SecondHalf(mix, bucket, seeds[0], |bucket|, |bucket| / 2);
      PartSeparated(mix, second);
      hide FirstHalf, SecondHalf, LeastSeed, LocalSlot, Splits, Separates, InRange;
      assert seeds == [seeds[0], seeds[1]];
      SplitSlotsDiffer(mix, bucket, seeds[0], seeds[1], i, j);
    } else {
      PartSeparated(mix, bucket);
      hide LeastSeed, InRange;
    }
  }

  // ---------- Order ----------

  // The same keys, in whatever order and with whatever entries.
  ghost predicate SameParts(s: seq<Entry>, t: seq<Entry>) { multiset(PartsOf(s)) == multiset(PartsOf(t)) }

  lemma SamePartsLength(s: seq<Entry>, t: seq<Entry>)
    requires SameParts(s, t)
    ensures |s| == |t|
  {
    PermLength(PartsOf(s), PartsOf(t));
  }

  lemma SlotsPerm(mix: MixHash, s: seq<Entry>, t: seq<Entry>, seed: nat, size: nat)
    requires SameParts(s, t)
    ensures NoDup(SlotsUnder(mix, s, seed, size)) == NoDup(SlotsUnder(mix, t, seed, size))
  {
    var h := (x: Parts) => mix(x, seed, size);
    MapPerm(h, PartsOf(s), PartsOf(t));
    assert SlotsUnder(mix, s, seed, size) == Map(h, PartsOf(s)) && SlotsUnder(mix, t, seed, size) == Map(h, PartsOf(t));
    NoDupPerm(SlotsUnder(mix, s, seed, size), SlotsUnder(mix, t, seed, size));
  }

  lemma SeparatesPerm(mix: MixHash, s: seq<Entry>, t: seq<Entry>, seed: nat)
    requires SameParts(s, t)
    ensures Separates(mix, s, seed) == Separates(mix, t, seed)
  {
    SamePartsLength(s, t);
    SlotsPerm(mix, s, t, seed, |s|);
  }

  lemma {:induction false} LeastSeedPerm(mix: MixHash, s: seq<Entry>, t: seq<Entry>, from: nat, max: nat)
    requires SameParts(s, t)
    ensures LeastSeed(mix, s, from, max) == LeastSeed(mix, t, from, max)
    decreases max - from
  {
    if from < max {
      SeparatesPerm(mix, s, t, from);
      LeastSeedPerm(mix, s, t, from + 1, max);
      hide Separates;
    }
  }

  lemma PartsAppend(s: seq<Entry>, e: Entry)
    ensures PartsOf(s + [e]) == PartsOf(s) + [e.parts]
  {
  }

  lemma {:induction false} HalvesCount(mix: MixHash, bucket: seq<Entry>, seed: nat, size: nat, split: nat, x: Parts)
    ensures multiset(PartsOf(FirstHalf(mix, bucket, seed, size, split)))[x]
         == if mix(x, seed, size) < split then multiset(PartsOf(bucket))[x] else 0
    ensures multiset(PartsOf(SecondHalf(mix, bucket, seed, size, split)))[x]
         == if mix(x, seed, size) < split then 0 else multiset(PartsOf(bucket))[x]
  {
    if |bucket| > 0 {
      var front, last := bucket[..|bucket| - 1], bucket[|bucket| - 1];
      HalvesCount(mix, front, seed, size, split, x);
      var first, second := FirstHalf(mix, front, seed, size, split), SecondHalf(mix, front, seed, size, split);
      assert bucket == front + [last] && first + [] == first && second + [] == second;
      PartsAppend(front, last);
      PartsAppend(first, last);
      PartsAppend(second, last);
      hide PartsOf;
    }
  }

  lemma HalvesPerm(mix: MixHash, s: seq<Entry>, t: seq<Entry>, seed: nat, size: nat, split: nat)
    requires SameParts(s, t)
    ensures SameParts(FirstHalf(mix, s, seed, size, split), FirstHalf(mix, t, seed, size, split))
    ensures SameParts(SecondHalf(mix, s, seed, size, split), SecondHalf(mix, t, seed, size, split))
  {
    var f, f' := PartsOf(FirstHalf(mix, s, seed, size, split)), PartsOf(FirstHalf(mix, t, seed, size, split));
    var g, g' := PartsOf(SecondHalf(mix, s, seed, size, split)), PartsOf(SecondHalf(mix, t, seed, size, split));
    forall x ensures multiset(f)[x] == multiset(f')[x] && multiset(g)[x] == multiset(g')[x] {
      HalvesCount(mix, s, seed, size, split, x);
      HalvesCount(mix, t, seed, size, split, x);
    }
    assert multiset(f) == multiset(f') && multiset(g) == multiset(g');
  }

  lemma SplitsPerm(mix: MixHash, s: seq<Entry>, t: seq<Entry>, seed: nat)
    requires SameParts(s, t)
    ensures Splits(mix, s, seed) == Splits(mix, t, seed)
  {
    SamePartsLength(s, t);
    var f, g := FirstHalf(mix, s, seed, |s|, |s| / 2), FirstHalf(mix, t, seed, |s|, |s| / 2);
    HalvesPerm(mix, s, t, seed, |s|, |s| / 2);
    SamePartsLength(f, g);
    SlotsPerm(mix, f, g, seed, |s|);
    hide FirstHalf;
  }

  lemma {:induction false} LeastSplitPerm(mix: MixHash, s: seq<Entry>, t: seq<Entry>, from: nat, max: nat)
    requires SameParts(s, t)
    ensures LeastSplit(mix, s, from, max) == LeastSplit(mix, t, from, max)
    decreases max - from
  {
    if from < max {
      SplitsPerm(mix, s, t, from);
      LeastSplitPerm(mix, s, t, from + 1, max);
      hide Splits;
    }
  }

  lemma DuplicatePerm(s: seq<Entry>, t: seq<Entry>)
    requires SameParts(s, t)
    ensures HasDuplicate(s) == HasDuplicate(t)
  {
    NoDupPerm(PartsOf(s), PartsOf(t));
  }

  lemma PartSeedPerm(mix: MixHash, s: seq<Entry>, t: seq<Entry>)
    requires SameParts(s, t)
    ensures PartSeed(mix, s) == PartSeed(mix, t)
  {
    DuplicatePerm(s, t);
    LeastSeedPerm(mix, s, t, 0, MAX_EXTENDED_SEED);
    hide LeastSeed, HasDuplicate;
  }

  /** A bucket's seeds depend on its keys only: not on their order, nor on what is stored with
      them. */
  lemma BucketSeedsPerm(mix: MixHash, s: seq<Entry>, t: seq<Entry>)
    requires SameParts(s, t)
    ensures |s| == |t| && BucketSeeds(mix, s) == BucketSeeds(mix, t)
  {
    SamePartsLength(s, t);
    if |s| >= SPLIT_THRESHOLD {
      LeastSplitPerm(mix, s, t, 0, SPLIT_BUCKET_MAX_SEED);
      DuplicatePerm(s, t);
      var split := LeastSplit(mix, s, 0, SPLIT_BUCKET_MAX_SEED);
      hide LeastSplit, PartSeed, HasDuplicate;
      if split.Some? {
        HalvesPerm(mix, s, t, split.value, |s|, |s| / 2);
        PartSeedPerm(mix, SecondHalf(mix, s, split.value, |s|, |s| / 2), SecondHalf(mix, t, split.value, |s|, |s| / 2));
      }
    } else {
      PartSeedPerm(mix, s, t);
      hide PartSeed;
    }
  }

  // Keys with equal parts collide under every seed.
  lemma DuplicatesCollide(mix: MixHash, bucket: seq<Entry>, seed: nat)
    requires HasDuplicate(bucket)
    ensures !Separates(mix, bucket, seed)
  {
    var i, j :| 0 <= i < j < |bucket| && PartsOf(bucket)[i] == PartsOf(bucket)[j];
    assert SlotsUnder(mix, bucket, seed, |bucket|)[i] == SlotsUnder(mix, bucket, seed, |bucket|)[j];
  }

  lemma DuplicateHalves(mix: MixHash, bucket: seq<Entry>, seed: nat)
    requires HasDuplicate(bucket) && Splits(mix, bucket, seed)
    ensures HasDuplicate(SecondHalf(mix, bucket, seed, |bucket|, |bucket| / 2))
  {
    var i, j :| 0 <= i < j < |bucket| && PartsOf(bucket)[i] == PartsOf(bucket)[j];
    var size, split := |bucket|, |bucket| / 2;
    FirstDiffer(mix, bucket, seed, i, j);
    HalvesAt(mix, bucket, seed, size, split, i);
    HalvesAt(mix, bucket, seed, size, split, j);
    HalvesApart(mix, bucket, seed, size, split, i, j);
    var second := SecondHalf(mix, bucket, seed, size, split);
    var p, q := |SecondHalf(mix, bucket[..i], seed, size, split)|, |SecondHalf(mix, bucket[..j], seed, size, split)|;
    hide FirstHalf, SecondHalf, Splits;
    assert PartsOf(second)[p] == PartsOf(second)[q];
  }

  /** Duplicate keys are always reported as such, wherever a split would put them. */
  lemma DuplicatesReported(mix: MixHash, bucket: seq<Entry>)
    requires HasDuplicate(bucket)
    ensures BucketSeeds(mix, bucket) == Err(DuplicateKey)
  {
    var i, j :| 0 <= i < j < |bucket| && PartsOf(bucket)[i] == PartsOf(bucket)[j];
    if |bucket| >= SPLIT_THRESHOLD {
      var split := LeastSplit(mix, bucket, 0, SPLIT_BUCKET_MAX_SEED);
      if split.Some? {
        DuplicateHalves(mix, bucket, split.value);
      }
    }
    hide LeastSplit, LeastSeed, HasDuplicate;
  }

  // ---------- A whole block ----------

  // The seeds of the first n buckets, or the error of the first bucket that has none.
  ghost function BlockSeeds(mix: MixHash, buckets: seq<seq<Entry>>, n: nat): (r: Result<seq<seq<nat>>, Error>)
    requires n <= |buckets|
    ensures r.Ok? ==> |r.value| == n && forall b :: 0 <= b < n ==> |r.value[b]| == |PartSizes(|buckets[b]|)|
  {
    if n == 0 then Ok([])
    else
      match BlockSeeds(mix, buckets, n - 1)
      case Err(e) => Err(e)
      case Ok(before) =>
        match BucketSeeds(mix, buckets[n - 1])
        case Err(e) => Err(e)
        case Ok(seeds) => Ok(before + [seeds])
  }

  lemma {:induction false} BlockSeedsAt(mix: MixHash, buckets: seq<seq<Entry>>, n: nat, b: nat)
    requires b < n <= |buckets| && BlockSeeds(mix, buckets, n).Ok?
    ensures BucketSeeds(mix, buckets[b]) == Ok(BlockSeeds(mix, buckets, n).value[b])
  {
    hide BucketSeeds;
    if b < n - 1 {
      BlockSeedsAt(mix, buckets, n - 1, b);
    }
  }

  // A failed prefix fails the block.
  lemma {:induction false} BlockSeedsFail(mix: MixHash, buckets: seq<seq<Entry>>, m: nat, n: nat)
    requires m <= n <= |buckets| && BlockSeeds(mix, buckets, m).Err?
    ensures BlockSeeds(mix, buckets, n) == BlockSeeds(mix, buckets, m)
    decreases n
  {
    hide BucketSeeds;
    if m < n {
      BlockSeedsFail(mix, buckets, m, n - 1);
    }
  }

  // One bucket more.
  lemma BlockSeedsStep(mix: MixHash, buckets: seq<seq<Entry>>, n: nat)
    requires n < |buckets|
    ensures var before, r := BlockSeeds(mix, buckets, n), BucketSeeds(mix, buckets[n]);
            BlockSeeds(mix, buckets, n + 1) ==
            if before.Err? then before else if r.Ok? then Ok(before.value + [r.value]) else Err(r.error)
  {
    hide BucketSeeds;
  }

  lemma NoBuckets(mix: MixHash, buckets: seq<seq<Entry>>)
    ensures BlockSeeds(mix, buckets, 0) == Ok([])
  {
  }

  lemma {:induction false} BlockSeedsPerm(mix: MixHash, s: seq<seq<Entry>>, t: seq<seq<Entry>>, n: nat)
    requires n <= |s| == |t| && forall b :: 0 <= b < n ==> SameParts(s[b], t[b])
    ensures BlockSeeds(mix, s, n) == BlockSeeds(mix, t, n)
  {
    hide *;
    NoBuckets(mix, s);
    NoBuckets(mix, t);
    if n > 0 {
      BlockSeedsPerm(mix, s, t, n - 1);
      BlockSeedsStep(mix, s, n - 1);
      BlockSeedsStep(mix, t, n - 1);
      BucketSeedsPerm(mix, s[n - 1], t[n - 1]);
    }
  }

  // ---------- The fallback list ----------

  datatype FallbackEntry = FallbackEntry(bucketIndex: nat, subBucket: nat, seed: nat)

  // What the seed stream holds for a bucket.
  function StoredSeeds(seeds: seq<nat>, size: nat): (r: seq<nat>)
    requires |seeds| == |PartSizes(size)|
    ensures |r| == |seeds|
  {
    seq(|seeds|, p requires 0 <= p < |seeds| => StoredSeed(seeds[p], PartSizes(size)[p]))
  }

  // The entries for the parts of bucket b from p on whose seeds have no code.
  function BucketFallbacks(b: nat, seeds: seq<nat>, size: nat, p: nat): seq<FallbackEntry>
    requires |seeds| == |PartSizes(size)|
    decreases |seeds| - p
  {
    if p >= |seeds| then []
    else
      (if StoredSeed(seeds[p], PartSizes(size)[p]) == FALLBACK_MARKER then [FallbackEntry(b, p, seeds[p])] else [])
      + BucketFallbacks(b, seeds, size, p + 1)
  }

  function Fallbacks(seeds: seq<seq<nat>>, sizes: seq<nat>, n: nat): seq<FallbackEntry>
    requires n <= |seeds| && n <= |sizes| && forall b :: 0 <= b < n ==> |seeds[b]| == |PartSizes(sizes[b])|
  {
    if n == 0 then [] else Fallbacks(seeds, sizes, n - 1) + BucketFallbacks(n - 1, seeds[n - 1], sizes[n - 1], 0)
  }
}
