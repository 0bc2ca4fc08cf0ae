/** A solved bijection block is a minimal perfect hash of its keys, whatever the
    order they were added in. */
module BijPerfect {
  import opened Basics
  import opened Grouping
  import opened SeedStream
  import opened BijSpec
  import opened BijMetadata
  import opened BijBlock
  import opened BijQuery

  // A key word XORed with the global seed.
  function Mixed(x: bv64, seed: bv64): bv64 { x ^ seed }

  // What builder and decoder share.
  datatype Geometry = Geometry(mix: MixHash, bucketOf: bv64 -> nat, globalSeed: bv64) {
    ghost predicate Valid() {
      InRange(mix) && forall x :: bucketOf(x) < NUM_BUCKETS
    }

    function PartsOf(k0: bv64, k1: bv64): Parts { Parts(Mixed(k0, globalSeed), Mixed(k1, globalSeed)) }

    // An entry's bucket is that of its key's first word.
    function Bucket(e: Entry): nat { bucketOf(Mixed(e.parts.x0, globalSeed)) }

    function Classifier(): (f: Entry -> nat)
      ensures forall e :: f(e) == Bucket(e)
    {
      (e: Entry) => Bucket(e)
    }

    function Buckets(entries: seq<Entry>): (r: seq<seq<Entry>>)
      ensures |r| == NUM_BUCKETS
    {
      Groups(Classifier(), entries, NUM_BUCKETS)
    }
  }

  function SizesOf(buckets: seq<seq<Entry>>): (r: seq<nat>)
    ensures |r| == |buckets| && forall b :: 0 <= b < |r| ==> r[b] == |buckets[b]|
  {
    seq(|buckets|, b requires 0 <= b < |buckets| => |buckets[b]|)
  }

  lemma Unmixed(x: bv64, seed: bv64)
    ensures Mixed(Mixed(x, seed), seed) == x
  {
  }

  lemma BucketUnmixed(g: Geometry, k0: bv64, k1: bv64, payload: nat, fingerprint: nat)
    ensures g.Bucket(Entry(g.PartsOf(k0, k1), payload, fingerprint)) == g.bucketOf(k0)
  {
    hide Mixed;
    Unmixed(k0, g.globalSeed);
  }

  // A key's entry is in the bucket of its first word.
  lemma BucketOfKey(g: Geometry, k0: bv64, k1: bv64, payload: nat, fingerprint: nat)
    requires g.Valid()
    ensures g.Bucket(Entry(g.PartsOf(k0, k1), payload, fingerprint)) == g.bucketOf(k0) < NUM_BUCKETS
  {
    BucketUnmixed(g, k0, k1, payload, fingerprint);
    hide Geometry.Bucket, Geometry.PartsOf, InRange;
  }

  lemma BucketsAppend(g: Geometry, entries: seq<Entry>, e: Entry)
    requires g.Valid()
    ensures g.Bucket(e) < NUM_BUCKETS
    ensures g.Buckets(entries + [e]) == g.Buckets(entries)[g.Bucket(e) := g.Buckets(entries)[g.Bucket(e)] + [e]]
  {
    GroupsAppend(g.Classifier(), entries, e, NUM_BUCKETS);
  }

  // ---------- Counting ----------

  lemma {:induction false} SumStep(s: seq<nat>, t: seq<nat>, b: nat, n: nat)
    requires |s| == |t| && n <= |s| && b < |s| && t == s[b := s[b] + 1]
    ensures Sum(t, n) == Sum(s, n) + if b < n then 1 else 0
  {
    if n > 0 {
      SumStep(s, t, b, n - 1);
    }
  }

  lemma {:induction false} SumZero(s: seq<nat>, n: nat)
    requires n <= |s| && forall i :: 0 <= i < n ==> s[i] == 0
    ensures Sum(s, n) == 0
  {
    if n > 0 {
      SumZero(s, n - 1);
    }
  }

  // The buckets hold every key once.
  lemma {:induction false} TotalKeys(g: Geometry, entries: seq<Entry>)
    requires g.Valid()
    ensures Sum(SizesOf(g.Buckets(entries)), NUM_BUCKETS) == |entries|
  {
    hide Sum;
    if |entries| == 0 {
      SumZero(SizesOf(g.Buckets(entries)), NUM_BUCKETS);
    } else {
      var n := |entries| - 1;
      var b := g.Bucket(entries[n]);
      TotalKeys(g, entries[..n]);
      GroupsAppend(g.Classifier(), entries[..n], entries[n], NUM_BUCKETS);
      assert entries[..n] + [entries[n]] == entries;
      var s, t := SizesOf(g.Buckets(entries[..n])), SizesOf(g.Buckets(entries));
      assert t == s[b := s[b] + 1];
      SumStep(s, t, b, NUM_BUCKETS);
    }
  }

  // ---------- Solved blocks ----------

  // The block's seeds, if it has any.
  ghost function Seeds(g: Geometry, entries: seq<Entry>): Result<seq<seq<nat>>, Error> {
    BlockSeeds(g.mix, g.Buckets(entries), NUM_BUCKETS)
  }

  ghost predicate Solved(g: Geometry, entries: seq<Entry>) {
    g.Valid() && 0 < |entries| <= MAX_UINT16 && Seeds(g, entries).Ok?
  }

  ghost function BlockOf(g: Geometry, entries: seq<Entry>): Block
    requires Seeds(g, entries).Ok?
  {
    Block(SizesOf(g.Buckets(entries)), Seeds(g, entries).value)
  }

  // Whether the block can be stored at all: its fallback list has a one-byte count.
  ghost predicate Storable(g: Geometry, entries: seq<Entry>) {
    Solved(g, entries) && BlockOf(g, entries).Shaped() && |BlockOf(g, entries).List()| <= MAX_FALLBACK_ENTRIES
  }

  lemma SeedsInRange(mix: MixHash, bucket: seq<Entry>)
    requires BucketSeeds(mix, bucket).Ok?
    ensures SeedsFit(BucketSeeds(mix, bucket).value, |bucket|)
  {
    hide Splits, Separates, HasDuplicate, SecondHalf;
  }

  lemma SolvedShaped(g: Geometry, entries: seq<Entry>)
    requires Solved(g, entries)
    ensures BlockOf(g, entries).Shaped() && |BlockOf(g, entries).sizes| == NUM_BUCKETS
    ensures BlockOf(g, entries).Total() == |entries|
  {
    var B := BlockOf(g, entries);
    var buckets := g.Buckets(entries);
    TotalKeys(g, entries);
    hide BlockSeeds, BucketSeeds, SeedsFit, Sum;
    forall b | 0 <= b < NUM_BUCKETS ensures SeedsFit(B.seeds[b], B.sizes[b]) {
      BlockSeedsAt(g.mix, buckets, NUM_BUCKETS, b);
      SeedsInRange(g.mix, buckets[b]);
    }
  }

  // ---------- Slots ----------

  // The slot of an entry, by its value alone.
  ghost function SlotFor(g: Geometry, B: Block, e: Entry): nat
    requires B.Shaped() && g.Bucket(e) < |B.sizes|
  {
    B.Slot(g.mix, e.parts, g.Bucket(e))
  }

  // The slot lies within its bucket's stretch.
  lemma SlotInStretch(g: Geometry, entries: seq<Entry>, i: nat)
    requires Solved(g, entries) && i < |entries|
    ensures var B, b := BlockOf(g, entries), g.Bucket(entries[i]);
            && B.Shaped() && b < |B.sizes|
            && Sum(B.sizes, b) <= SlotFor(g, B, entries[i]) < Sum(B.sizes, b + 1) <= |entries|
  {
    var B, b := BlockOf(g, entries), g.Bucket(entries[i]);
    SolvedShaped(g, entries);
    GroupAt(g.Classifier(), entries, i);
    SumMonotone(B.sizes, b + 1, NUM_BUCKETS);
    hide BlockSeeds, LocalSlot, Group, SeedsFit;
    assert B.sizes[b] > 0 && Sum(B.sizes, b + 1) == Sum(B.sizes, b) + B.sizes[b];
    assert SeedsFit(B.seeds[b], B.sizes[b]);
    SeedsFitLength(B.seeds[b], B.sizes[b]);
    LocalSlotInRange(g.mix, entries[i].parts, B.sizes[b], B.seeds[b]);
  }

  lemma SeedsFitLength(seeds: seq<nat>, size: nat)
    requires SeedsFit(seeds, size)
    ensures |seeds| == |PartSizes(size)|
  {
  }

  // Within one bucket the solver separates the keys.
  lemma SlotsDifferInBucket(g: Geometry, entries: seq<Entry>, i: nat, j: nat)
    requires Solved(g, entries) && i < j < |entries| && g.Bucket(entries[i]) == g.Bucket(entries[j])
    ensures BlockOf(g, entries).Shaped() && g.Bucket(entries[i]) < |BlockOf(g, entries).sizes|
    ensures SlotFor(g, BlockOf(g, entries), entries[i]) != SlotFor(g, BlockOf(g, entries), entries[j])
  {
    SolvedShaped(g, entries);
    var f, b := g.Classifier(), g.Bucket(entries[i]);
    var bucket := Group(f, entries, b);
    GroupAt(f, entries, i);
    GroupAt(f, entries, j);
    GroupApart(f, entries, i, j);
    BlockSeedsAt(g.mix, g.Buckets(entries), NUM_BUCKETS, b);
    hide BlockSeeds, BucketSeeds, LocalSlot, SeedsFit, Sum;
    BucketSlotsDiffer(g.mix, bucket, |Group(f, entries[..i], b)|, |Group(f, entries[..j], b)|);
    hide Group;
  }

  lemma SlotsDiffer(g: Geometry, entries: seq<Entry>, i: nat, j: nat)
    requires Solved(g, entries) && i < j < |entries|
    ensures BlockOf(g, entries).Shaped()
    ensures g.Bucket(entries[i]) < |BlockOf(g, entries).sizes| && g.Bucket(entries[j]) < |BlockOf(g, entries).sizes|
    ensures SlotFor(g, BlockOf(g, entries), entries[i]) != SlotFor(g, BlockOf(g, entries), entries[j])
  {
    var B := BlockOf(g, entries);
    SlotInStretch(g, entries, i);
    SlotInStretch(g, entries, j);
    var b, c := g.Bucket(entries[i]), g.Bucket(entries[j]);
    if b == c {
      SlotsDifferInBucket(g, entries, i, j);
    } else if b < c {
      SumMonotone(B.sizes, b + 1, c);
    } else {
      SumMonotone(B.sizes, c + 1, b);
    }
    hide Solved, SlotFor;
  }

  ghost function Ranks(g: Geometry, entries: seq<Entry>): (r: seq<nat>)
    requires Solved(g, entries)
    ensures |r| == |entries|
  {
    SolvedShaped(g, entries);
    seq(|entries|, i requires 0 <= i < |entries| => SlotFor(g, BlockOf(g, entries), entries[i]))
  }

  /** The slots of a solved block's keys are exactly 0 .. |entries| - 1, each once. */
  lemma SlotsAreBijection(g: Geometry, entries: seq<Entry>)
    requires Solved(g, entries)
    ensures NoDup(Ranks(g, entries))
    ensures (set r | r in Ranks(g, entries)) == Range(|entries|)
  {
    var ranks := Ranks(g, entries);
    SolvedShaped(g, entries);
    forall i | 0 <= i < |entries| ensures ranks[i] < |entries| {
      SlotInStretch(g, entries, i);
    }
    forall i, j | 0 <= i < j < |entries| ensures ranks[i] != ranks[j] {
      SlotsDiffer(g, entries, i, j);
    }
    hide Solved, BlockOf, SlotFor, Ranks;
    Pigeonhole(ranks);
  }

  // ---------- Order ----------

  // The same keys in every bucket, in whatever order and with whatever entries.
  ghost predicate SameKeys(g: Geometry, s: seq<Entry>, t: seq<Entry>) {
    |s| == |t| && forall b :: 0 <= b < NUM_BUCKETS ==> SameParts(g.Buckets(s)[b], g.Buckets(t)[b])
  }

  lemma SameKeysFromPerm(g: Geometry, s: seq<Entry>, t: seq<Entry>)
    requires multiset(s) == multiset(t)
    ensures SameKeys(g, s, t)
  {
    PermLength(s, t);
    forall b | 0 <= b < NUM_BUCKETS ensures SameParts(g.Buckets(s)[b], g.Buckets(t)[b]) {
      GroupPerm(g.Classifier(), s, t, b);
      MapPerm((e: Entry) => e.parts, g.Buckets(s)[b], g.Buckets(t)[b]);
    }
  }

  lemma BucketsAgree(g: Geometry, s: seq<Entry>, t: seq<Entry>)
    requires SameKeys(g, s, t)
    ensures Seeds(g, s) == Seeds(g, t) && SizesOf(g.Buckets(s)) == SizesOf(g.Buckets(t))
  {
    BlockSeedsPerm(g.mix, g.Buckets(s), g.Buckets(t), NUM_BUCKETS);
    hide BlockSeeds, Group, SameParts;
    forall b | 0 <= b < NUM_BUCKETS ensures SizesOf(g.Buckets(s))[b] == SizesOf(g.Buckets(t))[b] {
      SamePartsLength(g.Buckets(s)[b], g.Buckets(t)[b]);
    }
  }

  /** Permuting the keys changes neither whether the block solves nor its bytes. */
  lemma MetadataOrderFree(g: Geometry, s: seq<Entry>, t: seq<Entry>, a: seq<Byte>, b: seq<Byte>)
    requires multiset(s) == multiset(t) && Storable(g, s)
    ensures Storable(g, t) && Seeds(g, s).Ok? && Seeds(g, t).Ok? && BlockOf(g, s) == BlockOf(g, t)
    ensures BlockOf(g, s).IsMetadata(a) && BlockOf(g, t).IsMetadata(b) ==> a == b
  {
    hide *;
    SameKeysFromPerm(g, s, t);
    BlocksAgree(g, s, t);
    if BlockOf(g, s).IsMetadata(a) && BlockOf(g, t).IsMetadata(b) {
      MetadataUnique(BlockOf(g, s), a, b);
    }
  }

  lemma SolvedSeeds(g: Geometry, entries: seq<Entry>)
    requires Storable(g, entries)
    ensures Solved(g, entries) && Seeds(g, entries).Ok?
  {
    hide Block.Shaped, Block.List;
  }

  lemma BlocksAgree(g: Geometry, s: seq<Entry>, t: seq<Entry>)
    requires SameKeys(g, s, t) && Storable(g, s)
    ensures Storable(g, t) && Seeds(g, s).Ok? && Seeds(g, t).Ok? && BlockOf(g, s) == BlockOf(g, t)
  {
    BucketsAgree(g, s, t);
    SolvedSeeds(g, s);
    hide Seeds, SizesOf, Block.Shaped, Block.List, Geometry.Buckets, SameParts;
  }
}
