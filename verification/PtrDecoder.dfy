/** The PTRHash metadata bytes and the query that reads them, with the theorem
    that a successfully built block is a minimal perfect hash of its keys. */
module PtrDecoder {
  import opened Basics
  import opened LittleEndian
  import opened PtrSpec
  import opened PtrInvariant
  import opened PtrSolve
  import opened PtrOrder
  import opened PtrRemap
  import opened PtrBlock

  datatype QueryError = NotFound | CorruptedIndex

  // ---------- Remap table bytes ----------

  function RemapEntries(table: seq<nat>): (r: seq<Byte>)
    ensures |r| == REMAP_ENTRY * |table|
  {
    if |table| == 0 then [] else RemapEntries(table[..|table| - 1]) + PutLE(table[|table| - 1], REMAP_ENTRY)
  }

  function RemapBytes(table: seq<nat>): seq<Byte> {
    PutLE(|table|, REMAP_HEADER) + RemapEntries(table)
  }

  lemma {:induction false} RemapEntryAt(table: seq<nat>, i: nat)
    requires i < |table|
    ensures RemapEntries(table)[REMAP_ENTRY * i..REMAP_ENTRY * i + REMAP_ENTRY] == PutLE(table[i], REMAP_ENTRY)
  {
    var n := |table| - 1;
    if i < n {
      RemapEntryAt(table[..n], i);
      assert RemapEntries(table)[..REMAP_ENTRY * n] == RemapEntries(table[..n]);
    } else {
      assert RemapEntries(table)[REMAP_ENTRY * n..] == PutLE(table[n], REMAP_ENTRY);
    }
  }

  function LookupRemap(data: seq<Byte>, slot: nat, numKeys: nat): nat
    requires slot >= numKeys ==> REMAP_HEADER + (slot - numKeys) * REMAP_ENTRY + REMAP_ENTRY <= |data|
  {
    if slot < numKeys then slot
    else
      var offset := REMAP_HEADER + (slot - numKeys) * REMAP_ENTRY;
      GetLE(data[offset..offset + REMAP_ENTRY])
  }

  // The decoder reads back each entry the encoder wrote.
  lemma LookupReadsTable(table: seq<nat>, slot: nat, numKeys: nat)
    requires numKeys <= slot < numKeys + |table|
    requires forall k :: 0 <= k < |table| ==> table[k] <= MAX_UINT16
    ensures LookupRemap(RemapBytes(table), slot, numKeys) == table[slot - numKeys]
  {
    var i := slot - numKeys;
    RemapEntryAt(table, i);
    var offset := REMAP_HEADER + i * REMAP_ENTRY;
    assert RemapBytes(table)[offset..offset + REMAP_ENTRY]
        == RemapEntries(table)[REMAP_ENTRY * i..REMAP_ENTRY * i + REMAP_ENTRY];
    assert Pow256(2) == 65536;
    GetPut(table[i], REMAP_ENTRY);
  }

  // ---------- Metadata and query ----------

  ghost predicate PilotsWritable(g: Geometry, st: State) {
    forall b :: 0 <= b < g.numBuckets ==> b in st.pilots && st.pilots[b] < NUM_PILOT_VALUES
  }

  function PilotBytes(n: nat, pilots: map<nat, nat>): (r: seq<Byte>)
    requires forall b :: 0 <= b < n ==> b in pilots && pilots[b] < NUM_PILOT_VALUES
    ensures |r| == n
  {
    seq(n, b requires 0 <= b < n => pilots[b])
  }

  ghost function TableOf(st: State, numKeys: nat, numSlots: nat): seq<nat> {
    Table(st.owner.Keys, numKeys, numSlots, numKeys, 0)
  }

  ghost function Metadata(g: Geometry, st: State, numKeys: nat): seq<Byte>
    requires PilotsWritable(g, st)
  {
    PilotBytes(g.numBuckets, st.pilots) + RemapBytes(TableOf(st, numKeys, g.numSlotsOf(numKeys)))
  }

  function QuerySlot(g: Geometry, k0: bv64, k1: bv64, metadata: seq<Byte>, keysInBlock: nat): Result<nat, QueryError>
    requires g.Valid()
  {
    if keysInBlock == 0 then Err(NotFound)
    else
      var numSlots := g.numSlotsOf(keysInBlock);
      if |metadata| < g.numBuckets then Err(CorruptedIndex)
      else
        var pilot := metadata[g.bucketOf(k1)];
        var slot := g.hash(SlotInput(k0, k1), pilot, numSlots);
        if slot < keysInBlock then Ok(slot)
        else
          var remapData := metadata[g.numBuckets..];
          if |remapData| < REMAP_HEADER + (numSlots - keysInBlock) * REMAP_ENTRY then Err(CorruptedIndex)
          else Ok(LookupRemap(remapData, slot, keysInBlock))
  }

  /** Query of pilots and table as encoded: the hash under the bucket's pilot,
      sent through the table.  The count field of the table is never consulted. */
  lemma QueryDecodes(g: Geometry, k0: bv64, k1: bv64, pilots: seq<Byte>, table: seq<nat>, n: nat)
    requires g.Valid() && 0 < n <= MAX_UINT16 && |pilots| == g.numBuckets && n + |table| == g.numSlotsOf(n)
    requires forall k :: 0 <= k < |table| ==> table[k] < n
    ensures var raw := g.hash(SlotInput(k0, k1), pilots[g.bucketOf(k1)], g.numSlotsOf(n));
            && raw < n + |table|
            && FinalSlot(table, n, raw) < n
            && QuerySlot(g, k0, k1, pilots + RemapBytes(table), n) == Ok(FinalSlot(table, n, raw))
  {
    var metadata := pilots + RemapBytes(table);
    var raw := g.hash(SlotInput(k0, k1), pilots[g.bucketOf(k1)], g.numSlotsOf(n));
    assert metadata[g.bucketOf(k1)] == pilots[g.bucketOf(k1)];
    assert metadata[g.numBuckets..] == RemapBytes(table);
    if raw >= n {
      LookupReadsTable(table, raw, n);
    }
    hide RemapBytes, LookupRemap, SlotInput;
  }

  // ---------- Solved blocks ----------

  /** `st` is what a successful solve of a non-empty block leaves behind. */
  ghost predicate Solved(g: Geometry, entries: seq<Entry>, st: State) {
    && g.Valid()
    && |entries| > 0
    && g.numSlotsOf(|entries|) <= MAX_UINT16
    && Inv(BlockOf(g, entries), st)
    && st.pilots.Keys == Range(g.numBuckets)
  }

  lemma SolveSolves(g: Geometry, entries: seq<Entry>, order: seq<nat>, rng: nat -> nat)
    requires g.Valid() && |entries| > 0
    requires IsOrder(Sizes(BlockOf(g, entries)), order)
    ensures var r := Solve(BlockOf(g, entries), order, rng);
            r.Ok? ==> Solved(g, entries, r.value)
  {
    SolveComplete(BlockOf(g, entries), order, rng);
    hide Inv, SolveFrom;
  }

  lemma SolvedFacts(g: Geometry, entries: seq<Entry>, st: State)
    requires Solved(g, entries, st)
    ensures g.Valid() && |entries| > 0 && g.numSlotsOf(|entries|) <= MAX_UINT16
    ensures Inv(BlockOf(g, entries), st)
    ensures PilotsWritable(g, st)
  {
    hide Inv;
    forall b | 0 <= b < g.numBuckets ensures b in st.pilots && st.pilots[b] < NUM_PILOT_VALUES {
      assert b in Range(g.numBuckets);
      PilotFacts(BlockOf(g, entries), st, b);
    }
  }

  // The slot of input `x` under the pilot of bucket `b`, before the remap.
  ghost function RawSlot(g: Geometry, n: nat, st: State, x: bv64, b: nat): nat
    requires b in st.pilots
  {
    g.hash(x, st.pilots[b], g.numSlotsOf(n))
  }

  // Entry i's bucket and raw slot.
  ghost function BucketAt(g: Geometry, entries: seq<Entry>, i: nat): nat
    requires i < |entries|
  {
    g.bucketOf(entries[i].suffix)
  }

  ghost function RawSlotAt(g: Geometry, entries: seq<Entry>, st: State, i: nat): nat
    requires i < |entries| && BucketAt(g, entries, i) in st.pilots
  {
    RawSlot(g, |entries|, st, entries[i].Input(), BucketAt(g, entries, i))
  }

  // Entry i's raw slot is the slot of its place in its bucket.
  lemma RawSlotInBucket(g: Geometry, entries: seq<Entry>, st: State, i: nat)
    requires i < |entries| && BucketAt(g, entries, i) in st.pilots
    requires BucketAt(g, entries, i) < g.numBuckets
    ensures var b := BucketAt(g, entries, i);
            var slots := BlockOf(g, entries).Slots(b, st.pilots[b]);
            var pos := |Filter(g, entries[..i], b)|;
            pos < |slots| && slots[pos] == RawSlotAt(g, entries, st, i)
  {
    hide Filter, SlotInput;
    FilterAt(g, entries, BucketAt(g, entries, i), i);
  }

  lemma RawSlotOwned(g: Geometry, entries: seq<Entry>, st: State, i: nat)
    requires Solved(g, entries, st) && i < |entries|
    ensures var b := BucketAt(g, entries, i);
            && b < g.numBuckets && b in st.pilots
            && RawSlotAt(g, entries, st, i) in st.owner && st.owner[RawSlotAt(g, entries, st, i)] == b
  {
    SolvedFacts(g, entries, st);
    hide Solved, Inv, RawSlotAt;
    var b := BucketAt(g, entries, i);
    RawSlotInBucket(g, entries, st, i);
    SlotOwned(BlockOf(g, entries), st, b, RawSlotAt(g, entries, st, i));
  }

  lemma FilterMonotone(g: Geometry, entries: seq<Entry>, b: nat, i: nat, j: nat)
    requires i < j < |entries| && g.bucketOf(entries[i].suffix) == b
    ensures |Filter(g, entries[..i], b)| < |Filter(g, entries[..j], b)|
  {
    FilterAt(g, entries[..j], b, i);
    assert entries[..j][..i] == entries[..i];
  }

  // No two entries of a solved block share a raw slot.
  lemma RawSlotsDistinct(g: Geometry, entries: seq<Entry>, st: State, i: nat, j: nat)
    requires Solved(g, entries, st) && i < j < |entries|
    ensures BucketAt(g, entries, i) in st.pilots && BucketAt(g, entries, j) in st.pilots
    ensures RawSlotAt(g, entries, st, i) != RawSlotAt(g, entries, st, j)
  {
    SolvedFacts(g, entries, st);
    RawSlotOwned(g, entries, st, i);
    RawSlotOwned(g, entries, st, j);
    hide Solved, Inv, RawSlotAt;
    var b := BucketAt(g, entries, i);
    if BucketAt(g, entries, j) == b {
      RawSlotInBucket(g, entries, st, i);
      RawSlotInBucket(g, entries, st, j);
      FilterMonotone(g, entries, b, i, j);
      PilotFacts(BlockOf(g, entries), st, b);
    }
  }

  // As many slots are taken as there are keys, all of them below numSlots.
  lemma TakenFacts(g: Geometry, entries: seq<Entry>, st: State)
    requires Solved(g, entries, st)
    ensures |st.owner.Keys| == |entries|
    ensures forall s :: s in st.owner.Keys ==> s < g.numSlotsOf(|entries|)
  {
    SolvedFacts(g, entries, st);
    assert BlockOf(g, entries).InRange();
    hide Solved, Inv;
    AllTaken(BlockOf(g, entries), st);
    SumSizesTotal(g, entries);
  }

  // ---------- The block theorem ----------

  lemma TableFits(g: Geometry, entries: seq<Entry>, st: State)
    requires Solved(g, entries, st)
    ensures var n := |entries|;
            var table := TableOf(st, n, g.numSlotsOf(n));
            n + |table| == g.numSlotsOf(n) > 0 && RemapsOnto(table, n, st.owner.Keys)
  {
    SolvedFacts(g, entries, st);
    TakenFacts(g, entries, st);
    hide Solved, Inv, RemapsOnto;
    TableRemapsOnto(st.owner.Keys, |entries|, g.numSlotsOf(|entries|));
  }

  /** On the bytes the builder writes, the decoder computes the remapped slot of
      any key at all, member or not, without an error, and it is in range. */
  lemma QueryIsFinalSlot(g: Geometry, entries: seq<Entry>, st: State, k0: bv64, k1: bv64)
    requires Solved(g, entries, st)
    ensures g.Valid() && PilotsWritable(g, st)
    ensures var n := |entries|;
            var table := TableOf(st, n, g.numSlotsOf(n));
            var raw := RawSlot(g, n, st, SlotInput(k0, k1), g.bucketOf(k1));
            && raw < n + |table|
            && FinalSlot(table, n, raw) < n
            && QuerySlot(g, k0, k1, Metadata(g, st, n), n) == Ok(FinalSlot(table, n, raw))
  {
    SolvedFacts(g, entries, st);
    TableFits(g, entries, st);
    var n := |entries|;
    var table := TableOf(st, n, g.numSlotsOf(n));
    assert forall k :: 0 <= k < |table| ==> table[k] < n;
    hide Inv, Solved, TableOf, QuerySlot, RemapBytes, RemapsOnto, FinalSlot, SlotInput;
    QueryDecodes(g, k0, k1, PilotBytes(g.numBuckets, st.pilots), table, n);
  }

  // ---------- The block theorem ----------

  // What the decoder answers for entry i on the block's own metadata.
  ghost function Answer(g: Geometry, entries: seq<Entry>, st: State, i: nat): Result<nat, QueryError>
    requires g.Valid() && PilotsWritable(g, st) && i < |entries|
  {
    QuerySlot(g, entries[i].k0, entries[i].suffix, Metadata(g, st, |entries|), |entries|)
  }

  lemma AnswerFacts(g: Geometry, entries: seq<Entry>, st: State, i: nat)
    requires Solved(g, entries, st) && i < |entries|
    ensures g.Valid() && PilotsWritable(g, st)
    ensures var n := |entries|;
            var table := TableOf(st, n, g.numSlotsOf(n));
            && BucketAt(g, entries, i) in st.pilots
            && RawSlotAt(g, entries, st, i) < n + |table|
            && FinalSlot(table, n, RawSlotAt(g, entries, st, i)) < n
            && Answer(g, entries, st, i) == Ok(FinalSlot(table, n, RawSlotAt(g, entries, st, i)))
  {
    QueryIsFinalSlot(g, entries, st, entries[i].k0, entries[i].suffix);
    hide Solved, TableOf, QuerySlot, FinalSlot, Metadata, SlotInput, RawSlot;
  }

  lemma AnswersDistinct(g: Geometry, entries: seq<Entry>, st: State, i: nat, j: nat)
    requires Solved(g, entries, st) && i < j < |entries|
    ensures g.Valid() && PilotsWritable(g, st)
    ensures Answer(g, entries, st, i) != Answer(g, entries, st, j)
  {
    AnswerFacts(g, entries, st, i);
    AnswerFacts(g, entries, st, j);
    RawSlotOwned(g, entries, st, i);
    RawSlotOwned(g, entries, st, j);
    RawSlotsDistinct(g, entries, st, i, j);
    TableFits(g, entries, st);
    hide Inv, Solved, TableOf, FinalSlot, Image, Answer, RawSlotAt;
  }

  ghost function Ranks(g: Geometry, entries: seq<Entry>, st: State): (r: seq<nat>)
    requires g.Valid() && PilotsWritable(g, st)
    ensures |r| == |entries|
  {
    seq(|entries|, i requires 0 <= i < |entries| =>
      var a := Answer(g, entries, st, i); if a.Ok? then a.value else 0)
  }

  lemma RanksAnswer(g: Geometry, entries: seq<Entry>, st: State, i: nat)
    requires Solved(g, entries, st) && i < |entries|
    ensures g.Valid() && PilotsWritable(g, st)
    ensures Answer(g, entries, st, i) == Ok(Ranks(g, entries, st)[i]) && Ranks(g, entries, st)[i] < |entries|
  {
    AnswerFacts(g, entries, st, i);
    hide Solved, Answer, TableOf, FinalSlot, RawSlotAt;
  }

  /** The decoder is a minimal perfect hash of the block: it answers every key of
      the block, no two alike, and the answers are exactly 0 .. |entries| - 1. */
  lemma BlockIsPerfectHash(g: Geometry, entries: seq<Entry>, st: State)
    requires Solved(g, entries, st)
    ensures g.Valid() && PilotsWritable(g, st)
    ensures forall i :: 0 <= i < |entries| ==> Answer(g, entries, st, i) == Ok(Ranks(g, entries, st)[i])
    ensures NoDup(Ranks(g, entries, st))
    ensures (set r | r in Ranks(g, entries, st)) == Range(|entries|)
  {
    SolvedFacts(g, entries, st);
    hide Solved, Answer, Ranks;
    var ranks := Ranks(g, entries, st);
    forall i | 0 <= i < |entries| ensures Answer(g, entries, st, i) == Ok(ranks[i]) && ranks[i] < |entries| {
      RanksAnswer(g, entries, st, i);
    }
    forall i, j | 0 <= i < j < |entries| ensures ranks[i] != ranks[j] {
      AnswersDistinct(g, entries, st, i, j);
    }
    Pigeonhole(ranks);
  }
}
