/** The payload region of a bijection block: every key's entry at the slot the query
    answers. */
module BijPayload {
  import opened Basics
  import opened LittleEndian
  import opened Encoding
  import opened Grouping
  import opened SeedStream
  import opened BijSpec
  import opened BijMetadata
  import opened BijBlock
  import opened BijQuery
  import opened BijPerfect

  ghost predicate Holds(region: seq<Byte>, slot: nat, e: Entry, fpSize: nat, payloadSize: nat) {
    && Offset(slot, fpSize + payloadSize) + fpSize + payloadSize <= |region|
    && EntryOf(region, slot, fpSize + payloadSize) == EntryBytes(e.fingerprint, e.payload, fpSize, payloadSize)
  }

  // Every key's entry sits at its rank.
  ghost predicate StoresAll(region: seq<Byte>, g: Geometry, entries: seq<Entry>, fpSize: nat, payloadSize: nat)
    requires Solved(g, entries)
  {
    forall i :: 0 <= i < |entries| ==> Holds(region, Ranks(g, entries)[i], entries[i], fpSize, payloadSize)
  }

  // ---------- Written bucket by bucket ----------

  // The place of the key at position p of bucket b.
  ghost function PlaceOf(g: Geometry, entries: seq<Entry>, b: nat, p: nat): nat
    requires Solved(g, entries) && b < NUM_BUCKETS && p < |g.Buckets(entries)[b]|
  {
    SolvedShaped(g, entries);
    GroupMember(g.Classifier(), entries, b, p);
    SlotFor(g, BlockOf(g, entries), g.Buckets(entries)[b][p])
  }

  lemma PlaceIs(g: Geometry, entries: seq<Entry>, b: nat, p: nat)
    requires Solved(g, entries) && b < NUM_BUCKETS && p < |g.Buckets(entries)[b]|
    ensures var B, e := BlockOf(g, entries), g.Buckets(entries)[b][p];
            && B.Shaped() && b < |B.sizes| && b < |B.seeds| && |B.seeds[b]| == |PartSizes(B.sizes[b])|
            && B.sizes[b] == |g.Buckets(entries)[b]| && B.sizes[b] > 0 && g.Bucket(e) == b
            && PlaceOf(g, entries, b, p) == Sum(B.sizes, b) + LocalSlot(g.mix, e.parts, B.sizes[b], B.seeds[b])
    ensures PlaceOf(g, entries, b, p) < Sum(BlockOf(g, entries).sizes, b + 1) <= |entries|
  {
    var B, e := BlockOf(g, entries), g.Buckets(entries)[b][p];
    SolvedShaped(g, entries);
    GroupMember(g.Classifier(), entries, b, p);
    SumMonotone(B.sizes, b + 1, NUM_BUCKETS);
    assert SeedsFit(B.seeds[b], B.sizes[b]);
    SeedsFitLength(B.seeds[b], B.sizes[b]);
    assert Sum(B.sizes, b + 1) == Sum(B.sizes, b) + B.sizes[b];
    hide BlockSeeds, LocalSlot, Group, SeedsFit, Sum;
    LocalSlotInRange(g.mix, e.parts, B.sizes[b], B.seeds[b]);
  }

  predicate Earlier(b: nat, p: nat, b': nat, p': nat) {
    b < b' || (b == b' && p < p')
  }

  lemma PlacesDiffer(g: Geometry, entries: seq<Entry>, b: nat, p: nat, b': nat, p': nat)
    requires Solved(g, entries) && b < NUM_BUCKETS && p < |g.Buckets(entries)[b]|
    requires b' < NUM_BUCKETS && p' < |g.Buckets(entries)[b']| && Earlier(b, p, b', p')
    ensures PlaceOf(g, entries, b, p) != PlaceOf(g, entries, b', p')
  {
    PlaceIs(g, entries, b, p);
    PlaceIs(g, entries, b', p');
    var B := BlockOf(g, entries);
    if b == b' {
      BlockSeedsAt(g.mix, g.Buckets(entries), NUM_BUCKETS, b);
      hide BlockSeeds, BucketSeeds, LocalSlot, PlaceOf, Group, Sum;
      BucketSlotsDiffer(g.mix, g.Buckets(entries)[b], p, p');
    } else {
      SumMonotone(B.sizes, b + 1, b');
      hide *;
    }
  }

  // The entries before position p of bucket b have been written.
  ghost predicate StoredBefore(region: seq<Byte>, g: Geometry, entries: seq<Entry>, b: nat, p: nat, fpSize: nat, payloadSize: nat)
    requires Solved(g, entries)
  {
    forall c: nat, q: nat :: c < NUM_BUCKETS && q < |g.Buckets(entries)[c]| && Earlier(c, q, b, p) ==>
      Holds(region, PlaceOf(g, entries, c, q), g.Buckets(entries)[c][q], fpSize, payloadSize)
  }

  lemma NothingBefore(region: seq<Byte>, g: Geometry, entries: seq<Entry>, fpSize: nat, payloadSize: nat)
    requires Solved(g, entries)
    ensures StoredBefore(region, g, entries, 0, 0, fpSize, payloadSize)
  {
  }

  lemma NextBucket(region: seq<Byte>, g: Geometry, entries: seq<Entry>, b: nat, fpSize: nat, payloadSize: nat)
    requires Solved(g, entries) && b < NUM_BUCKETS
    requires StoredBefore(region, g, entries, b, |g.Buckets(entries)[b]|, fpSize, payloadSize)
    ensures StoredBefore(region, g, entries, b + 1, 0, fpSize, payloadSize)
  {
    hide Holds, PlaceOf, Solved;
    forall c: nat, q: nat | c < NUM_BUCKETS && q < |g.Buckets(entries)[c]| && Earlier(c, q, b + 1, 0)
      ensures Holds(region, PlaceOf(g, entries, c, q), g.Buckets(entries)[c][q], fpSize, payloadSize)
    {
      assert Earlier(c, q, b, |g.Buckets(entries)[b]|);
    }
  }

  lemma StoredOneMore(before: seq<Byte>, after: seq<Byte>, g: Geometry, entries: seq<Entry>, b: nat, p: nat,
                      fpSize: nat, payloadSize: nat)
    requires Solved(g, entries) && b < NUM_BUCKETS && p < |g.Buckets(entries)[b]|
    requires StoredBefore(before, g, entries, b, p, fpSize, payloadSize)
    requires var e := g.Buckets(entries)[b][p];
             Stored(before, after, Offset(PlaceOf(g, entries, b, p), fpSize + payloadSize),
                    EntryBytes(e.fingerprint, e.payload, fpSize, payloadSize))
    ensures StoredBefore(after, g, entries, b, p + 1, fpSize, payloadSize)
  {
    var e := g.Buckets(entries)[b][p];
    var bytes := EntryBytes(e.fingerprint, e.payload, fpSize, payloadSize);
    var slot := PlaceOf(g, entries, b, p);
    hide Solved, PlaceOf, EntryBytes, Offset, Stored;
    StoredLength(before, after, Offset(slot, |bytes|), bytes);
    forall c: nat, q: nat | c < NUM_BUCKETS && q < |g.Buckets(entries)[c]| && Earlier(c, q, b, p + 1)
      ensures Holds(after, PlaceOf(g, entries, c, q), g.Buckets(entries)[c][q], fpSize, payloadSize)
    {
      if c == b && q == p {
        StoredEntry(before, after, slot, bytes, slot);
      } else {
        PlacesDiffer(g, entries, c, q, b, p);
        StoredEntry(before, after, slot, bytes, PlaceOf(g, entries, c, q));
      }
    }
  }

  lemma StoredIsStoresAll(region: seq<Byte>, g: Geometry, entries: seq<Entry>, fpSize: nat, payloadSize: nat)
    requires Solved(g, entries) && StoredBefore(region, g, entries, NUM_BUCKETS, 0, fpSize, payloadSize)
    ensures StoresAll(region, g, entries, fpSize, payloadSize)
  {
    forall i | 0 <= i < |entries| ensures Holds(region, Ranks(g, entries)[i], entries[i], fpSize, payloadSize) {
      RankAt(g, entries, i);
      var b := g.Bucket(entries[i]);
      var p := |Group(g.Classifier(), entries[..i], b)|;
      hide Holds, PlaceOf, Solved, Ranks, Group;
      assert Earlier(b, p, NUM_BUCKETS, 0);
    }
  }

  // An entry's rank is the place of its position in its bucket.
  lemma RankAt(g: Geometry, entries: seq<Entry>, i: nat)
    requires Solved(g, entries) && i < |entries|
    ensures var b := g.Bucket(entries[i]);
            var p := |Group(g.Classifier(), entries[..i], b)|;
            && b < NUM_BUCKETS && p < |g.Buckets(entries)[b]| && g.Buckets(entries)[b][p] == entries[i]
            && Ranks(g, entries)[i] == PlaceOf(g, entries, b, p) < |entries|
  {
    var b := g.Bucket(entries[i]);
    var p := |Group(g.Classifier(), entries[..i], b)|;
    GroupAt(g.Classifier(), entries, i);
    SolvedShaped(g, entries);
    PlaceIs(g, entries, b, p);
    hide BlockSeeds, Group, LocalSlot, SeedsFit, Sum;
  }

  // ---------- The theorems ----------

  /** For every key: the query on the block's metadata answers a slot, and the entry
      there is the key's own. */
  lemma QueryFindsEntry(g: Geometry, entries: seq<Entry>, region: seq<Byte>, fpSize: nat, payloadSize: nat, i: nat)
    requires Solved(g, entries) && i < |entries| && StoresAll(region, g, entries, fpSize, payloadSize)
    requires entries[i].fingerprint < Pow256(fpSize) && entries[i].payload < Pow256(payloadSize)
    ensures BlockOf(g, entries).Shaped() && g.Bucket(entries[i]) < |BlockOf(g, entries).sizes|
    ensures var answer := Answer(BlockOf(g, entries), g.mix, entries[i].parts, g.Bucket(entries[i]));
            && answer == Ok(Ranks(g, entries)[i]) && answer.value < |entries|
            && Offset(answer.value, fpSize + payloadSize) + fpSize + payloadSize <= |region|
            && ReadEntry(region, answer.value, fpSize, payloadSize) == (entries[i].fingerprint, entries[i].payload)
  {
    SlotInStretch(g, entries, i);
    var slot := Ranks(g, entries)[i];
    assert Holds(region, slot, entries[i], fpSize, payloadSize);
    assert BlockOf(g, entries).sizes[g.Bucket(entries[i])] > 0 by {
      var b := g.Bucket(entries[i]);
      assert Sum(BlockOf(g, entries).sizes, b + 1) == Sum(BlockOf(g, entries).sizes, b) + BlockOf(g, entries).sizes[b];
    }
    hide BlockSeeds, LocalSlot, SeedsFit, Sum, Offset, EntryBytes, ReadEntry;
    ReadWritten(region, slot, entries[i].fingerprint, entries[i].payload, fpSize, payloadSize);
  }

  lemma RankTaken(g: Geometry, entries: seq<Entry>, r: nat) returns (i: nat)
    requires Solved(g, entries) && r < |entries|
    ensures i < |entries| && Ranks(g, entries)[i] == r
  {
    SlotsAreBijection(g, entries);
    hide Solved, Ranks;
    assert r in Range(|entries|);
    i :| 0 <= i < |entries| && Ranks(g, entries)[i] == r;
  }

  // The rank of a key depends on its value only.
  lemma RankByValue(g: Geometry, s: seq<Entry>, t: seq<Entry>, i: nat, j: nat)
    requires Storable(g, s) && multiset(s) == multiset(t) && i < |s| && j < |t| && s[i] == t[j]
    ensures Solved(g, s) && Solved(g, t) && Ranks(g, s)[i] == Ranks(g, t)[j]
  {
    SameKeysFromPerm(g, s, t);
    BlocksAgree(g, s, t);
    hide BlockOf, Seeds, Block.Shaped, Block.List;
  }

  /** The payload bytes do not depend on the order the keys were added in. */
  lemma PayloadsOrderFree(g: Geometry, s: seq<Entry>, t: seq<Entry>, a: seq<Byte>, b: seq<Byte>, fpSize: nat, payloadSize: nat)
    requires Storable(g, s) && multiset(s) == multiset(t)
    requires Solved(g, s) && Solved(g, t)
    requires StoresAll(a, g, s, fpSize, payloadSize) && StoresAll(b, g, t, fpSize, payloadSize)
    requires Offset(|s|, fpSize + payloadSize) <= |a| && Offset(|s|, fpSize + payloadSize) <= |b|
    ensures a[..Offset(|s|, fpSize + payloadSize)] == b[..Offset(|s|, fpSize + payloadSize)]
  {
    var e := fpSize + payloadSize;
    hide Solved, Storable, Ranks, Offset, EntryBytes;
    forall r | 0 <= r < |s| ensures SameEntry(a, b, r, e) {
      var i := RankTaken(g, s, r);
      SameMembers(s, t, s[i]);
      var j :| 0 <= j < |t| && t[j] == s[i];
      RankByValue(g, s, t, i, j);
      assert Holds(a, r, s[i], fpSize, payloadSize) && Holds(b, r, t[j], fpSize, payloadSize);
    }
    RegionDetermined(a, b, |s|, e);
  }
}
