/** The PTRHash block builder: keys into buckets, retries of the solver, the
    metadata bytes and the payload region. */
module PtrBuilder {
  import opened Basics
  import opened LittleEndian
  import opened Encoding
  import opened Words
  import opened PtrSpec
  import opened PtrInvariant
  import opened PtrSolve
  import opened PtrOrder
  import opened PtrRemap
  import opened PtrBlock
  import opened PtrDecoder
  import opened PtrFields
  import opened PtrSolver

  const MAX_GLOBAL_RETRIES := 10

  // ---------- Retries ----------

  // Only an exceeded eviction limit is tried again, with the next attempt's draws.
  ghost function Attempts(B: Block, order: seq<nat>, rngOf: nat -> nat -> nat, attempt: nat, limit: nat): (r: Result<State, Error>)
    requires forall i :: 0 <= i < |order| ==> order[i] < |B.buckets|
    decreases limit - attempt, order
  {
    if attempt >= limit then Err(EvictionLimitExceeded)
    else
      var r := Solve(B, order, rngOf(attempt));
      if r == Err(EvictionLimitExceeded) then Attempts(B, order, rngOf, attempt + 1, limit) else r
  }

  lemma AttemptsStep(B: Block, order: seq<nat>, rngOf: nat -> nat -> nat, attempt: nat, limit: nat)
    requires IsOrder(Sizes(B), order)
    ensures forall i :: 0 <= i < |order| ==> order[i] < |B.buckets|
    ensures attempt >= limit ==> Attempts(B, order, rngOf, attempt, limit) == Err(EvictionLimitExceeded)
    ensures attempt < limit ==>
              var r := Solve(B, order, rngOf(attempt));
              Attempts(B, order, rngOf, attempt, limit) ==
              if r == Err(EvictionLimitExceeded) then Attempts(B, order, rngOf, attempt + 1, limit) else r
  {
    hide Solve;
  }

  lemma {:induction false} AttemptsAgree(A: Block, B: Block, orderA: seq<nat>, orderB: seq<nat>, rngOf: nat -> nat -> nat, attempt: nat, limit: nat)
    requires SameKeys(A, B)
    requires IsOrder(Sizes(A), orderA) && IsOrder(Sizes(B), orderB)
    ensures Attempts(A, orderA, rngOf, attempt, limit) == Attempts(B, orderB, rngOf, attempt, limit)
    decreases limit - attempt
  {
    AttemptsStep(A, orderA, rngOf, attempt, limit);
    AttemptsStep(B, orderB, rngOf, attempt, limit);
    hide *;
    if attempt < limit {
      SolveAgrees(A, B, orderA, orderB, rngOf(attempt));
      AttemptsAgree(A, B, orderA, orderB, rngOf, attempt + 1, limit);
    }
  }

  lemma {:induction false} AttemptsSolve(g: Geometry, entries: seq<Entry>, order: seq<nat>, rngOf: nat -> nat -> nat, attempt: nat, limit: nat)
    requires g.Valid() && |entries| > 0 && IsOrder(Sizes(BlockOf(g, entries)), order)
    ensures var r := Attempts(BlockOf(g, entries), order, rngOf, attempt, limit);
            r.Ok? ==> Solved(g, entries, r.value)
    decreases limit - attempt
  {
    AttemptsStep(BlockOf(g, entries), order, rngOf, attempt, limit);
    hide *;
    if attempt < limit {
      SolveSolves(g, entries, order, rngOf(attempt));
      AttemptsSolve(g, entries, order, rngOf, attempt + 1, limit);
    }
  }

  /** Two keys of one bucket with equal slot inputs, duplicates above all, collide
      under every pilot: no attempt succeeds. */
  lemma DuplicatesNeverBuild(g: Geometry, entries: seq<Entry>, order: seq<nat>, rngOf: nat -> nat -> nat, i: nat, j: nat)
    requires g.Valid() && IsOrder(Sizes(BlockOf(g, entries)), order)
    requires i < j < |entries|
    requires entries[i].Input() == entries[j].Input() && BucketAt(g, entries, i) == BucketAt(g, entries, j)
    ensures Attempts(BlockOf(g, entries), order, rngOf, 0, MAX_GLOBAL_RETRIES).Err?
  {
    AttemptsSolve(g, entries, order, rngOf, 0, MAX_GLOBAL_RETRIES);
    var r := Attempts(BlockOf(g, entries), order, rngOf, 0, MAX_GLOBAL_RETRIES);
    hide Attempts, Solved;
    if r.Ok? {
      RawSlotsDistinct(g, entries, r.value, i, j);
    }
  }

  /** And a duplicate key is reported only of a block in which two keys of one bucket have equal slot
      inputs. */
  lemma {:induction false} ReportedAreDuplicates(B: Block, order: seq<nat>, rngOf: nat -> nat -> nat, attempt: nat, limit: nat)
    requires IsOrder(Sizes(B), order)
    ensures forall i :: 0 <= i < |order| ==> order[i] < |B.buckets|
    ensures Attempts(B, order, rngOf, attempt, limit) == Err(DuplicateKey) ==> HasTwins(B)
    decreases limit - attempt
  {
    AttemptsStep(B, order, rngOf, attempt, limit);
    hide Attempts, Solve, HasTwins, IsOrder;
    if attempt < limit {
      DuplicatesAreReal(B, order, rngOf(attempt));
      ReportedAreDuplicates(B, order, rngOf, attempt + 1, limit);
    }
  }

  // ---------- Sizes ----------

  function EstimateMetadataSize(g: Geometry, numKeys: nat): nat
    requires g.Valid()
  {
    if numKeys == 0 then g.numBuckets + REMAP_HEADER
    else g.numBuckets + REMAP_HEADER + (g.numSlotsOf(numKeys) - numKeys + 1) * REMAP_ENTRY
  }

  /** The estimate handed to callers is never too small; on a block with keys it is one table entry
      too large. */
  lemma EstimateSuffices(g: Geometry, entries: seq<Entry>, st: State)
    requires Solved(g, entries, st)
    ensures g.Valid() && PilotsWritable(g, st)
    ensures |Metadata(g, st, |entries|)| <= EstimateMetadataSize(g, |entries|)
    ensures |entries| > 0 ==> EstimateMetadataSize(g, |entries|) == |Metadata(g, st, |entries|)| + 2
  {
    SolvedFacts(g, entries, st);
    hide Solved, Inv;
  }

  // ---------- Payload region ----------

  ghost predicate Holds(region: seq<Byte>, slot: nat, e: Entry, fpSize: nat, payloadSize: nat) {
    && Offset(slot, fpSize + payloadSize) + fpSize + payloadSize <= |region|
    && EntryOf(region, slot, fpSize + payloadSize) == EntryBytes(e.fingerprint, e.payload, fpSize, payloadSize)
  }

  // The final slot of a key, by its value alone.
  ghost function SlotFor(g: Geometry, n: nat, st: State, e: Entry): nat
    requires g.Valid() && PilotsWritable(g, st)
    requires n <= g.numSlotsOf(n)
  {
    var table := TableOf(st, n, g.numSlotsOf(n));
    var raw := RawSlot(g, n, st, e.Input(), g.bucketOf(e.suffix));
    if raw < n + |table| then FinalSlot(table, n, raw) else 0
  }

  // Every key's entry sits at the slot the decoder answers for it.
  ghost predicate StoresAll(region: seq<Byte>, g: Geometry, entries: seq<Entry>, st: State, fpSize: nat, payloadSize: nat)
    requires g.Valid() && PilotsWritable(g, st)
  {
    forall i :: 0 <= i < |entries| ==> Holds(region, Ranks(g, entries, st)[i], entries[i], fpSize, payloadSize)
  }

  lemma RankIsSlotFor(g: Geometry, entries: seq<Entry>, st: State, i: nat)
    requires Solved(g, entries, st) && i < |entries|
    ensures g.Valid() && PilotsWritable(g, st)
    ensures Ranks(g, entries, st)[i] == SlotFor(g, |entries|, st, entries[i]) < |entries|
  {
    AnswerFacts(g, entries, st, i);
    RanksAnswer(g, entries, st, i);
    hide Solved, Answer, TableOf, FinalSlot;
  }

  lemma RankTaken(g: Geometry, entries: seq<Entry>, st: State, r: nat) returns (i: nat)
    requires Solved(g, entries, st) && r < |entries|
    ensures g.Valid() && PilotsWritable(g, st)
    ensures i < |entries| && Ranks(g, entries, st)[i] == r
  {
    BlockIsPerfectHash(g, entries, st);
    assert r in Range(|entries|);
    i :| 0 <= i < |entries| && Ranks(g, entries, st)[i] == r;
  }

  /** The order in which keys were added shows neither in the metadata nor in the
      payload bytes. */
  lemma BytesOrderFree(g: Geometry, s: seq<Entry>, t: seq<Entry>, orderS: seq<nat>, orderT: seq<nat>, rngOf: nat -> nat -> nat,
                       regionS: seq<Byte>, regionT: seq<Byte>, fpSize: nat, payloadSize: nat)
    requires g.Valid() && |s| > 0 && multiset(s) == multiset(t)
    requires IsOrder(Sizes(BlockOf(g, s)), orderS) && IsOrder(Sizes(BlockOf(g, t)), orderT)
    ensures |s| == |t| && Attempts(BlockOf(g, s), orderS, rngOf, 0, MAX_GLOBAL_RETRIES) == Attempts(BlockOf(g, t), orderT, rngOf, 0, MAX_GLOBAL_RETRIES)
    ensures var r := Attempts(BlockOf(g, s), orderS, rngOf, 0, MAX_GLOBAL_RETRIES);
            r.Ok? ==>
              && PilotsWritable(g, r.value)
              && (StoresAll(regionS, g, s, r.value, fpSize, payloadSize) && StoresAll(regionT, g, t, r.value, fpSize, payloadSize)
                  && Offset(|s|, fpSize + payloadSize) <= |regionS| && Offset(|s|, fpSize + payloadSize) <= |regionT| ==>
                  regionS[..Offset(|s|, fpSize + payloadSize)] == regionT[..Offset(|s|, fpSize + payloadSize)])
  {
    PermLength(s, t);
    SameKeysFromPerm(g, s, t);
    AttemptsAgree(BlockOf(g, s), BlockOf(g, t), orderS, orderT, rngOf, 0, MAX_GLOBAL_RETRIES);
    AttemptsSolve(g, s, orderS, rngOf, 0, MAX_GLOBAL_RETRIES);
    AttemptsSolve(g, t, orderT, rngOf, 0, MAX_GLOBAL_RETRIES);
    var r := Attempts(BlockOf(g, s), orderS, rngOf, 0, MAX_GLOBAL_RETRIES);
    if r.Ok? {
      SolvedFacts(g, s, r.value);
      hide *;
      if StoresAll(regionS, g, s, r.value, fpSize, payloadSize) && StoresAll(regionT, g, t, r.value, fpSize, payloadSize)
         && Offset(|s|, fpSize + payloadSize) <= |regionS| && Offset(|s|, fpSize + payloadSize) <= |regionT| {
        RegionsEqual(g, s, t, r.value, regionS, regionT, fpSize, payloadSize);
      }
    }
  }

  lemma RegionsEqual(g: Geometry, s: seq<Entry>, t: seq<Entry>, st: State, regionS: seq<Byte>, regionT: seq<Byte>,
                     fpSize: nat, payloadSize: nat)
    requires Solved(g, s, st) && Solved(g, t, st) && multiset(s) == multiset(t) && |s| == |t|
    requires g.Valid() && PilotsWritable(g, st)
    requires StoresAll(regionS, g, s, st, fpSize, payloadSize) && StoresAll(regionT, g, t, st, fpSize, payloadSize)
    requires Offset(|s|, fpSize + payloadSize) <= |regionS| && Offset(|s|, fpSize + payloadSize) <= |regionT|
    ensures regionS[..Offset(|s|, fpSize + payloadSize)] == regionT[..Offset(|s|, fpSize + payloadSize)]
  {
    hide Solved, SlotFor, Ranks, Offset, EntryBytes;
    var e := fpSize + payloadSize;
    forall r | 0 <= r < |s| ensures SameEntry(regionS, regionT, r, e) {
      var i := RankTaken(g, s, st, r);
      SameMembers(s, t, s[i]);
      var j :| 0 <= j < |t| && t[j] == s[i];
      RankIsSlotFor(g, s, st, i);
      RankIsSlotFor(g, t, st, j);
      assert Holds(regionS, r, s[i], fpSize, payloadSize) && Holds(regionT, r, s[i], fpSize, payloadSize);
    }
    RegionDetermined(regionS, regionT, |s|, e);
  }

  /** Query, then read: for every key of a built block, the entry at the slot the
      decoder answers is that key's fingerprint and payload. */
  lemma BlockRoundTrip(g: Geometry, entries: seq<Entry>, st: State, region: seq<Byte>, fpSize: nat, payloadSize: nat, i: nat)
    requires Solved(g, entries, st) && i < |entries|
    requires g.Valid() && PilotsWritable(g, st) && StoresAll(region, g, entries, st, fpSize, payloadSize)
    requires entries[i].fingerprint < Pow256(fpSize) && entries[i].payload < Pow256(payloadSize)
    ensures var answer := Answer(g, entries, st, i);
            && answer.Ok? && answer.value < |entries|
            && Offset(answer.value, fpSize + payloadSize) + fpSize + payloadSize <= |region|
            && ReadEntry(region, answer.value, fpSize, payloadSize) == (entries[i].fingerprint, entries[i].payload)
  {
    RanksAnswer(g, entries, st, i);
    var slot := Ranks(g, entries, st)[i];
    assert Holds(region, slot, entries[i], fpSize, payloadSize);
    hide Solved, Answer, Ranks, Offset, EntryBytes, ReadEntry;
    ReadWritten(region, slot, entries[i].fingerprint, entries[i].payload, fpSize, payloadSize);
  }

  // ---------- Entries by bucket ----------

  // Where the key at position p of bucket b ends up.
  ghost function PlaceOf(B: Block, st: State, table: seq<nat>, n: nat, b: nat, p: nat): nat
    requires b < |B.buckets| && p < |B.buckets[b]| && b in st.pilots
  {
    var raw := B.Slots(b, st.pilots[b])[p];
    if raw < n + |table| then FinalSlot(table, n, raw) else 0
  }

  // Position p of bucket b comes before position p' of bucket b'.
  predicate Earlier(b: nat, p: nat, b': nat, p': nat) {
    b < b' || (b == b' && p < p')
  }

  // Different positions end up in different places.
  lemma PlacesDiffer(B: Block, st: State, table: seq<nat>, n: nat, b: nat, p: nat, b': nat, p': nat)
    requires Inv(B, st) && RemapsOnto(table, n, st.owner.Keys)
    requires b < |B.buckets| && p < |B.buckets[b]| && b in st.pilots
    requires b' < |B.buckets| && p' < |B.buckets[b']| && b' in st.pilots
    requires Earlier(b, p, b', p')
    ensures PlaceOf(B, st, table, n, b, p) != PlaceOf(B, st, table, n, b', p')
    ensures PlaceOf(B, st, table, n, b, p) < n && PlaceOf(B, st, table, n, b', p') < n
  {
    PlaceInRange(B, st, table, n, b, p);
    PlaceInRange(B, st, table, n, b', p');
    PilotFacts(B, st, b);
    var s, s' := B.Slots(b, st.pilots[b])[p], B.Slots(b', st.pilots[b'])[p'];
    SlotOwned(B, st, b, s);
    SlotOwned(B, st, b', s');
    hide Inv, FinalSlot;
    assert s != s';
  }

  lemma PlaceInRange(B: Block, st: State, table: seq<nat>, n: nat, b: nat, p: nat)
    requires Inv(B, st) && RemapsOnto(table, n, st.owner.Keys)
    requires b < |B.buckets| && p < |B.buckets[b]| && b in st.pilots
    ensures B.Slots(b, st.pilots[b])[p] < n + |table| && PlaceOf(B, st, table, n, b, p) < n
  {
    SlotOwned(B, st, b, B.Slots(b, st.pilots[b])[p]);
    hide Inv;
    var raw := B.Slots(b, st.pilots[b])[p];
    assert FinalSlot(table, n, raw) in Image(table, n, st.owner.Keys);
  }

  // The entries before position p of bucket b have been written.
  ghost predicate StoredBefore(region: seq<Byte>, B: Block, st: State, table: seq<nat>, n: nat, b: nat, p: nat,
                               fpSize: nat, payloadSize: nat)
    requires forall c :: 0 <= c < |B.buckets| ==> c in st.pilots
  {
    forall c: nat, q: nat :: c < |B.buckets| && q < |B.buckets[c]| && Earlier(c, q, b, p) ==>
      Holds(region, PlaceOf(B, st, table, n, c, q), B.buckets[c][q], fpSize, payloadSize)
  }

  // Writing one more entry keeps the earlier ones.
  lemma StoredOneMore(before: seq<Byte>, after: seq<Byte>, B: Block, st: State, table: seq<nat>, n: nat, b: nat, p: nat,
                      fpSize: nat, payloadSize: nat)
    requires Inv(B, st) && RemapsOnto(table, n, st.owner.Keys)
    requires forall c :: 0 <= c < |B.buckets| ==> c in st.pilots
    requires b < |B.buckets| && p < |B.buckets[b]|
    requires StoredBefore(before, B, st, table, n, b, p, fpSize, payloadSize)
    requires var e := B.buckets[b][p];
             Stored(before, after, Offset(PlaceOf(B, st, table, n, b, p), fpSize + payloadSize),
                    EntryBytes(e.fingerprint, e.payload, fpSize, payloadSize))
    ensures StoredBefore(after, B, st, table, n, b, p + 1, fpSize, payloadSize)
  {
    var e := B.buckets[b][p];
    var bytes := EntryBytes(e.fingerprint, e.payload, fpSize, payloadSize);
    var slot := PlaceOf(B, st, table, n, b, p);
    hide Inv, RemapsOnto, PlaceOf, EntryBytes, Offset, Stored;
    forall c: nat, q: nat | c < |B.buckets| && q < |B.buckets[c]| && Earlier(c, q, b, p + 1)
      ensures Holds(after, PlaceOf(B, st, table, n, c, q), B.buckets[c][q], fpSize, payloadSize)
    {
      StoredLength(before, after, Offset(slot, |bytes|), bytes);
      if c == b && q == p {
        StoredEntry(before, after, slot, bytes, slot);
      } else {
        PlacesDiffer(B, st, table, n, c, q, b, p);
        StoredEntry(before, after, slot, bytes, PlaceOf(B, st, table, n, c, q));
      }
    }
  }

  // All buckets written means every key's entry is at its rank.
  lemma StoredIsStoresAll(region: seq<Byte>, g: Geometry, entries: seq<Entry>, st: State, fpSize: nat, payloadSize: nat)
    requires Solved(g, entries, st)
    requires forall c :: 0 <= c < g.numBuckets ==> c in st.pilots
    requires var n := |entries|;
             StoredBefore(region, BlockOf(g, entries), st, TableOf(st, n, g.numSlotsOf(n)), n, g.numBuckets, 0, fpSize, payloadSize)
    ensures g.Valid() && PilotsWritable(g, st) && StoresAll(region, g, entries, st, fpSize, payloadSize)
  {
    SolvedFacts(g, entries, st);
    var n, B := |entries|, BlockOf(g, entries);
    var table := TableOf(st, n, g.numSlotsOf(n));
    hide Solved, Inv, TableOf, FinalSlot, Holds, RawSlotAt, Answer, Ranks;
    forall i | 0 <= i < n ensures Holds(region, Ranks(g, entries, st)[i], entries[i], fpSize, payloadSize) {
      var b := BucketAt(g, entries, i);
      var p := |Filter(g, entries[..i], b)|;
      AnswerFacts(g, entries, st, i);
      RanksAnswer(g, entries, st, i);
      RawSlotOwned(g, entries, st, i);
      RawSlotInBucket(g, entries, st, i);
      FilterAt(g, entries, b, i);
      assert Earlier(b, p, g.numBuckets, 0);
      assert PlaceOf(B, st, table, n, b, p) == Ranks(g, entries, st)[i];
    }
  }

  // All earlier attempts ran into the eviction limit.
  ghost predicate Retrying(B: Block, order: seq<nat>, rngOf: nat -> nat -> nat, attempt: nat, limit: nat) {
    && IsOrder(Sizes(B), order)
    && (forall i :: 0 <= i < |order| ==> order[i] < |B.buckets|)
    && Attempts(B, order, rngOf, attempt, limit) == Attempts(B, order, rngOf, 0, limit)
  }

  lemma RetryStarts(B: Block, order: seq<nat>, rngOf: nat -> nat -> nat, limit: nat)
    requires IsOrder(Sizes(B), order)
    ensures Retrying(B, order, rngOf, 0, limit)
  {
    AttemptsStep(B, order, rngOf, 0, limit);
    hide IsOrder, Attempts;
  }

  lemma RetryStep(B: Block, was: seq<nat>, order: seq<nat>, rngOf: nat -> nat -> nat, attempt: nat, limit: nat)
    requires Retrying(B, was, rngOf, attempt, limit) && IsOrder(Sizes(B), order) && attempt < limit
    ensures forall i :: 0 <= i < |order| ==> order[i] < |B.buckets|
    ensures var r := Solve(B, order, rngOf(attempt));
            if r == Err(EvictionLimitExceeded) then Retrying(B, order, rngOf, attempt + 1, limit)
            else Attempts(B, order, rngOf, 0, limit) == r
  {
    OrderUnique(Sizes(B), was, order, |was|);
    assert was == order;
    AttemptsStep(B, order, rngOf, attempt, limit);
    hide IsOrder, Attempts, Solve;
  }

  lemma RetryEnds(B: Block, order: seq<nat>, rngOf: nat -> nat -> nat, attempt: nat, limit: nat)
    requires Retrying(B, order, rngOf, attempt, limit) && attempt >= limit
    ensures IsOrder(Sizes(B), order)
    ensures forall i :: 0 <= i < |order| ==> order[i] < |B.buckets|
    ensures Attempts(B, order, rngOf, 0, limit) == Err(EvictionLimitExceeded)
  {
    AttemptsStep(B, order, rngOf, attempt, limit);
    hide IsOrder, Attempts;
  }

  // The count and the first i entries are in place behind the first `at` bytes.
  ghost predicate RemapWritten(buf: seq<Byte>, at: nat, table: seq<nat>, i: nat, front: seq<Byte>)
    requires i <= |table|
  {
    var end := at + REMAP_HEADER + REMAP_ENTRY * i;
    && end <= |buf|
    && buf[at..end] == PutLE(|table|, REMAP_HEADER) + RemapEntries(table[..i])
    && buf[..at] == front
  }

  lemma RemapStarts(before: seq<Byte>, after: seq<Byte>, at: nat, table: seq<nat>)
    requires Stored(before, after, at, PutLE(|table|, REMAP_HEADER))
    ensures RemapWritten(after, at, table, 0, before[..at])
  {
    hide PutLE, Stored;
    StoredLength(before, after, at, PutLE(|table|, REMAP_HEADER));
    StoredAppends(before, after, at, at, [], PutLE(|table|, REMAP_HEADER));
    assert table[..0] == [];
    assert PutLE(|table|, REMAP_HEADER) + [] == [] + PutLE(|table|, REMAP_HEADER);
  }

  lemma RemapSteps(before: seq<Byte>, after: seq<Byte>, at: nat, table: seq<nat>, i: nat, front: seq<Byte>)
    requires i < |table| && RemapWritten(before, at, table, i, front)
    requires Stored(before, after, at + REMAP_HEADER + REMAP_ENTRY * i, PutLE(table[i], REMAP_ENTRY))
    ensures RemapWritten(after, at, table, i + 1, front)
  {
    var mid := at + REMAP_HEADER + REMAP_ENTRY * i;
    var written := PutLE(|table|, REMAP_HEADER) + RemapEntries(table[..i]);
    assert table[..i + 1][..i] == table[..i];
    assert RemapEntries(table[..i + 1]) == RemapEntries(table[..i]) + PutLE(table[i], REMAP_ENTRY);
    hide PutLE, RemapEntries, Stored;
    StoredAppends(before, after, at, mid, written, PutLE(table[i], REMAP_ENTRY));
    assert PutLE(|table|, REMAP_HEADER) + (RemapEntries(table[..i]) + PutLE(table[i], REMAP_ENTRY))
        == written + PutLE(table[i], REMAP_ENTRY);
  }

  lemma RemapEnds(buf: seq<Byte>, at: nat, table: seq<nat>, front: seq<Byte>)
    requires RemapWritten(buf, at, table, |table|, front)
    ensures at + |RemapBytes(table)| <= |buf| && |RemapBytes(table)| == REMAP_HEADER + REMAP_ENTRY * |table|
    ensures buf[at..at + |RemapBytes(table)|] == RemapBytes(table) && buf[..at] == front
  {
    assert table[..|table|] == table;
  }

  // Writes the remap table behind the first `at` bytes.
  method EncodeRemapTableInto(table: seq<nat>, dst: array<Byte>, at: nat) returns (n: nat)
    requires at + REMAP_HEADER + REMAP_ENTRY * |table| <= dst.Length
    modifies dst
    ensures n == |RemapBytes(table)| && at + n <= dst.Length
    ensures dst[at..at + n] == RemapBytes(table) && dst[..at] == old(dst[..at])
  {
    hide RemapWritten, Stored, PutLE, RemapBytes;
    ghost var front := dst[..at];
    ghost var before := dst[..];
    WriteField(dst, at, |table|, REMAP_HEADER);
    RemapStarts(before, dst[..], at, table);
    assert before[..at] == front;
    for i := 0 to |table|
      invariant RemapWritten(dst[..], at, table, i, front)
    {
      before := dst[..];
      WriteField(dst, at + REMAP_HEADER + i * REMAP_ENTRY, table[i], REMAP_ENTRY);
      RemapSteps(before, dst[..], at, table, i, front);
    }
    RemapEnds(dst[..], at, table, front);
    assert dst[..][at..at + |RemapBytes(table)|] == dst[at..at + |RemapBytes(table)|];
    return REMAP_HEADER + |table| * REMAP_ENTRY;
  }

  // Adding a key appends it to its bucket.
  lemma BucketsAppend(g: Geometry, s: seq<Entry>, e: Entry)
    requires g.Valid()
    ensures var b := g.bucketOf(e.suffix);
            Buckets(g, s + [e]) == Buckets(g, s)[b := Buckets(g, s)[b] + [e]]
  {
    var next := Buckets(g, s)[g.bucketOf(e.suffix) := Buckets(g, s)[g.bucketOf(e.suffix)] + [e]];
    forall b | 0 <= b < g.numBuckets ensures Buckets(g, s + [e])[b] == next[b] {
      FilterAppend(g, s, e, b);
    }
    hide Buckets;
    assert Buckets(g, s + [e]) == next;
  }

  lemma FilterAppend(g: Geometry, s: seq<Entry>, e: Entry, b: nat)
    ensures Filter(g, s + [e], b) == if g.bucketOf(e.suffix) == b then Filter(g, s, b) + [e] else Filter(g, s, b)
  {
    assert (s + [e])[..|s|] == s;
  }

  lemma BucketsEmpty(g: Geometry)
    ensures Buckets(g, []) == seq(g.numBuckets, _ => [])
  {
  }

  // Each bucket holds at most all of the block's keys.
  lemma {:induction false} BucketBound(buckets: seq<seq<Entry>>, n: nat, b: nat)
    requires b < n <= |buckets|
    ensures |buckets[b]| <= SumSizes(buckets, n)
  {
    if b < n - 1 {
      BucketBound(buckets, n - 1, b);
    }
  }

  // Metadata length, payload length, number of keys.
  datatype Built = Built(metadataLen: nat, payloadsLen: nat, numKeys: nat)

  // Zero pilots and an empty remap table.
  function EmptyMetadata(g: Geometry): seq<Byte> {
    seq(g.numBuckets, _ => 0) + RemapBytes([])
  }

  lemma EmptyRemap()
    ensures RemapBytes([]) == [0, 0]
  {
    assert PutLE(0, 2) == [0] + PutLE(0, 1) && PutLE(0, 1) == [0] + PutLE(0, 0);
  }

  lemma NextBucket(region: seq<Byte>, B: Block, st: State, table: seq<nat>, n: nat, b: nat, fpSize: nat, payloadSize: nat)
    requires forall c :: 0 <= c < |B.buckets| ==> c in st.pilots
    requires b < |B.buckets| && StoredBefore(region, B, st, table, n, b, |B.buckets[b]|, fpSize, payloadSize)
    ensures StoredBefore(region, B, st, table, n, b + 1, 0, fpSize, payloadSize)
  {
    hide Holds, PlaceOf;
    forall c: nat, q: nat | c < |B.buckets| && q < |B.buckets[c]| && Earlier(c, q, b + 1, 0)
      ensures Holds(region, PlaceOf(B, st, table, n, c, q), B.buckets[c][q], fpSize, payloadSize)
    {
      assert Earlier(c, q, b, |B.buckets[b]|);
    }
  }

  lemma NothingBefore(region: seq<Byte>, B: Block, st: State, table: seq<nat>, n: nat, fpSize: nat, payloadSize: nat)
    requires forall c :: 0 <= c < |B.buckets| ==> c in st.pilots
    ensures StoredBefore(region, B, st, table, n, 0, 0, fpSize, payloadSize)
  {
  }

  // What the payload encoder may count on.
  lemma EncodeFacts(g: Geometry, entries: seq<Entry>, st: State)
    requires Solved(g, entries, st)
    ensures g.Valid() && PilotsWritable(g, st)
    ensures var n, B := |entries|, BlockOf(g, entries);
            var table := TableOf(st, n, g.numSlotsOf(n));
            && Inv(B, st) && RemapsOnto(table, n, st.owner.Keys) && n + |table| == g.numSlotsOf(n) == B.numSlots
            && |B.buckets| == g.numBuckets && B.buckets == Buckets(g, entries)
            && forall c :: 0 <= c < |B.buckets| ==> c in st.pilots
  {
    SolvedFacts(g, entries, st);
    TableFits(g, entries, st);
    hide Solved, Inv, RemapsOnto;
  }

  // The encoder's slot computation arrives at the key's place.
  lemma PlaceComputed(B: Block, st: State, table: seq<nat>, n: nat, b: nat, p: nat)
    requires Inv(B, st) && RemapsOnto(table, n, st.owner.Keys) && n + |table| == B.numSlots
    requires b < |B.buckets| && p < |B.buckets[b]| && b in st.pilots
    ensures var raw := B.hash(B.buckets[b][p].Input(), st.pilots[b], B.numSlots);
            && raw < n + |table|
            && PlaceOf(B, st, table, n, b, p) == (if raw < n then raw else table[raw - n]) < n
  {
    hide *;
    PlaceInRange(B, st, table, n, b, p);
    PlaceOfRaw(B, st, table, n, b, p);
  }

  lemma PlaceOfRaw(B: Block, st: State, table: seq<nat>, n: nat, b: nat, p: nat)
    requires b < |B.buckets| && p < |B.buckets[b]| && b in st.pilots
    ensures var raw := B.hash(B.buckets[b][p].Input(), st.pilots[b], B.numSlots);
            && B.Slots(b, st.pilots[b])[p] == raw
            && (raw < n + |table| ==> PlaceOf(B, st, table, n, b, p) == if raw < n then raw else table[raw - n])
  {
  }

  lemma EstimateFits(g: Geometry, st: State, n: nat)
    requires g.Valid() && n > 0
    ensures g.numBuckets + 2 + 2 * |TableOf(st, n, g.numSlotsOf(n))| <= EstimateMetadataSize(g, n)
    ensures REMAP_HEADER == 2 && REMAP_ENTRY == 2
  {
    hide Table;
  }

  lemma MetadataIs(g: Geometry, st: State, n: nat, front: seq<Byte>)
    requires PilotsWritable(g, st) && |front| == g.numBuckets
    requires forall b :: 0 <= b < g.numBuckets ==> b in st.pilots && front[b] == st.pilots[b]
    ensures Metadata(g, st, n) == front + RemapBytes(TableOf(st, n, g.numSlotsOf(n)))
  {
    hide RemapBytes, TableOf;
    assert front == PilotBytes(g.numBuckets, st.pilots);
  }

  // Every fingerprint fits its field.
  ghost predicate FingerprintsFit(entries: seq<Entry>, fpSize: nat) {
    forall e :: e in entries ==> e.fingerprint < Pow2(8 * fpSize)
  }

  lemma EntryInBucket(g: Geometry, entries: seq<Entry>, b: nat, p: nat)
    requires b < g.numBuckets && p < |Buckets(g, entries)[b]|
    ensures Buckets(g, entries)[b][p] in entries
  {
    var e := Filter(g, entries, b)[p];
    FilterCount(g, entries, b, e);
    assert e in multiset(Filter(g, entries, b));
    assert e in multiset(entries);
  }

  class Builder {
    const g: Geometry
    const rngOf: nat -> nat -> nat
    const maxKeysPerBlock: nat
    const fingerprintSize: nat
    const payloadSize: nat
    const solver: Solver

    var buckets: seq<seq<Entry>>
    var keysInBlock: nat
    var remap: seq<nat>

    // The keys of the current block in the order they were added.
    ghost var added: seq<Entry>

    ghost predicate Grouped()
      reads `buckets, `keysInBlock, `added
    {
      && g.Valid() && 0 < g.numBuckets <= 0x8000
      && buckets == Buckets(g, added) && keysInBlock == |added|
      && solver.hash == g.hash
      && FingerprintsFit(added, fingerprintSize)
    }

    ghost predicate Valid()
      reads `buckets, `keysInBlock, `added, solver, solver.heap
    {
      Grouped() && solver.Idle() && |solver.processedGen| == g.numBuckets
    }

    constructor (g: Geometry, rngOf: nat -> nat -> nat, maxKeysPerBlock: nat, fingerprintSize: nat, payloadSize: nat,
                 solverMaxSlots: nat)
      requires g.Valid() && 0 < g.numBuckets <= 0x8000
      ensures Valid() && added == [] && this.g == g && this.rngOf == rngOf && this.maxKeysPerBlock == maxKeysPerBlock
      ensures this.fingerprintSize == fingerprintSize && this.payloadSize == payloadSize
      ensures fresh(solver) && fresh(solver.heap)
    {
      this.g, this.rngOf, this.maxKeysPerBlock := g, rngOf, maxKeysPerBlock;
      this.fingerprintSize, this.payloadSize := fingerprintSize, payloadSize;
      solver := new Solver(g.hash, g.numBuckets, solverMaxSlots);
      buckets, keysInBlock, remap := seq(g.numBuckets, _ => []), 0, [];
      added := [];
      new;
      BucketsEmpty(g);
    }

    method AddKey(k0: bv64, k1: bv64, payload: nat, fingerprint: nat)
      requires Valid() && fingerprint < Pow2(8 * fingerprintSize)
      modifies `buckets, `keysInBlock, `added
      ensures Valid() && added == old(added) + [Entry(k0, k1, payload, fingerprint)]
    {
      var b := g.bucketOf(k1);
      var e := Entry(k0, k1, payload, fingerprint);
      BucketsAppend(g, added, e);
      buckets := buckets[b := buckets[b] + [e]];
      keysInBlock := keysInBlock + 1;
      added := added + [e];
    }

    method Reset()
      requires Valid()
      modifies `buckets, `keysInBlock, `remap, `added
      ensures Valid() && added == []
    {
      BucketsEmpty(g);
      buckets := seq(|buckets|, _ => []);
      keysInBlock, remap := 0, [];
      added := [];
    }

    function MaxMetadataSizeForCurrentBlock(): nat
      reads this
      requires g.Valid()
    {
      EstimateMetadataSize(g, keysInBlock)
    }

    ghost function TheBlock(): Block
      reads `added
    {
      BlockOf(g, added)
    }

    // What the retry loop arrives at.
    ghost function Outcome(): Result<State, Error>
      reads `added, solver`bucketOrder
      requires IsOrder(Sizes(TheBlock()), solver.bucketOrder)
    {
      AttemptsStep(TheBlock(), solver.bucketOrder, rngOf, 0, MAX_GLOBAL_RETRIES);
      Attempts(TheBlock(), solver.bucketOrder, rngOf, 0, MAX_GLOBAL_RETRIES)
    }

    /** Solves the block, retrying while the eviction limit is exceeded.  Pilots go
        straight into `dst`. */
    method SolveBlock(dst: array<Byte>) returns (err: Option<Error>)
      requires Valid() && keysInBlock > 0 && g.numBuckets <= dst.Length
      modifies `remap, solver, solver.heap, dst
      ensures Valid()
      ensures g.numSlotsOf(keysInBlock) >= 0x1_0000 ==> err == Some(BlockOverflow)
      ensures g.numSlotsOf(keysInBlock) < 0x1_0000 ==>
                && IsOrder(Sizes(TheBlock()), solver.bucketOrder)
                && match Outcome()
                   case Err(e) => err == Some(e)
                   case Ok(st) =>
                     && err == None
                     && remap == TableOf(st, keysInBlock, g.numSlotsOf(keysInBlock))
                     && PilotsIn(dst[..], st)
    {
      ghost var B := TheBlock();
      hide *;
      RetryLimit();
      var attempt := 0;
      while attempt < MAX_GLOBAL_RETRIES
        invariant Valid()
        invariant attempt > 0 ==> g.numSlotsOf(keysInBlock) < 0x1_0000
        invariant attempt > 0 ==> Retrying(B, solver.bucketOrder, rngOf, attempt, MAX_GLOBAL_RETRIES)
      {
        ghost var was := solver.bucketOrder;
        var r := TryOnce(dst, attempt);
        if g.numSlotsOf(keysInBlock) < 0x1_0000 {
          if attempt == 0 {
            was := solver.bucketOrder;
            RetryStarts(B, was, rngOf, MAX_GLOBAL_RETRIES);
          }
          RetryStep(B, was, solver.bucketOrder, rngOf, attempt, MAX_GLOBAL_RETRIES);
        }
        OutcomeIs(B);
        YieldsIs(dst);
        if r.Ok? {
          return None;
        }
        if r.error != EvictionLimitExceeded {
          return Some(r.error);
        }
        attempt := attempt + 1;
      }
      RetryEnds(B, solver.bucketOrder, rngOf, attempt, MAX_GLOBAL_RETRIES);
      OutcomeIs(B);
      return Some(EvictionLimitExceeded);
    }

    lemma RetryLimit()
      ensures MAX_GLOBAL_RETRIES > 0
    {
    }

    lemma OutcomeIs(B: Block)
      requires B == TheBlock()
      ensures IsOrder(Sizes(B), solver.bucketOrder) ==>
                && (forall i :: 0 <= i < |solver.bucketOrder| ==> solver.bucketOrder[i] < |B.buckets|)
                && Outcome() == Attempts(B, solver.bucketOrder, rngOf, 0, MAX_GLOBAL_RETRIES)
    {
      if IsOrder(Sizes(B), solver.bucketOrder) {
        AttemptsStep(B, solver.bucketOrder, rngOf, 0, MAX_GLOBAL_RETRIES);
      }
      hide Attempts, Sizes;
    }

    lemma YieldsIs(dst: array<Byte>)
      ensures forall wanted: Result<State, Error>, r :: Yields(wanted, r, dst) ==>
                && wanted.Ok? == r.Ok?
                && (wanted.Err? ==> r == Err(wanted.error))
                && (wanted.Ok? ==>
                      && r == Ok(TableOf(wanted.value, keysInBlock, g.numSlotsOf(keysInBlock)))
                      && PilotsIn(dst[..], wanted.value))
    {
    }

    // One attempt.
    method TryOnce(dst: array<Byte>, attempt: nat) returns (r: Result<seq<nat>, Error>)
      requires Valid() && keysInBlock > 0 && g.numBuckets <= dst.Length
      modifies `remap, solver, solver.heap, dst
      ensures Valid() && (r.Ok? ==> remap == r.value)
      ensures g.numSlotsOf(keysInBlock) >= 0x1_0000 ==> r == Err(BlockOverflow)
      ensures g.numSlotsOf(keysInBlock) < 0x1_0000 ==>
                && IsOrder(Sizes(TheBlock()), solver.bucketOrder)
                && Yields(Solve(TheBlock(), solver.bucketOrder, rngOf(attempt)), r, dst)
    {
      hide *;
      Prepare(dst, g.numSlotsOf(keysInBlock));
      r := solver.Solve(attempt, rngOf);
      StaysValid();
      DeliveredYields(dst);
      if r.Ok? {
        remap := r.value;
      }
    }

    lemma StaysValid()
      requires Grouped() && solver.Idle() && |solver.processedGen| == g.numBuckets
      ensures Valid()
    {
    }

    lemma DeliveredYields(dst: array<Byte>)
      requires solver.pilots == dst && solver.numKeys == keysInBlock && solver.numSlots == g.numSlotsOf(keysInBlock)
      requires |solver.buckets| == g.numBuckets
      ensures forall wanted: Result<State, Error>, r :: solver.Delivers(wanted, r) ==> Yields(wanted, r, dst)
    {
    }

    ghost predicate Yields(wanted: Result<State, Error>, r: Result<seq<nat>, Error>, dst: array<Byte>)
      reads `keysInBlock, dst
    {
      match wanted
      case Err(e) => r == Err(e)
      case Ok(st) =>
        && r == Ok(TableOf(st, keysInBlock, g.numSlotsOf(keysInBlock)))
        && PilotsIn(dst[..], st)
    }

    // The pilots have been written to the front of the buffer.
    ghost predicate PilotsIn(metadata: seq<Byte>, st: State) {
      g.numBuckets <= |metadata| && forall b :: 0 <= b < g.numBuckets ==> b in st.pilots && metadata[b] == st.pilots[b]
    }

    // Loads the block into the solver.
    method Prepare(dst: array<Byte>, slots: nat)
      requires Valid() && keysInBlock > 0 && g.numBuckets <= dst.Length && slots == g.numSlotsOf(keysInBlock)
      modifies solver
      ensures Grouped() && solver.Idle() && |solver.processedGen| == g.numBuckets
      ensures solver.pilots == dst && solver.numKeys == keysInBlock <= solver.numSlots == slots
      ensures solver.numBuckets == g.numBuckets
      ensures slots < 0x1_0000 ==> solver.Fresh() && solver.TheBlock() == TheBlock()
      ensures SumSizes(solver.buckets, |solver.buckets|) == keysInBlock && |solver.buckets| == g.numBuckets
    {
      SumSizesTotal(g, added);
      forall b | 0 <= b < |buckets| ensures |buckets[b]| <= keysInBlock { BucketBound(buckets, |buckets|, b); }
      assert forall x, p :: g.hash(x, p, slots) < slots;
      solver.Reset(buckets, keysInBlock, slots, dst);
    }

    // ---------- Payloads ----------

    // One entry, by its size.
    method WriteOne(dst: array<Byte>, slot: nat, e: Entry)
      requires e.fingerprint < Pow2(8 * fingerprintSize)
      requires Offset(slot, fingerprintSize + payloadSize) + fingerprintSize + payloadSize <= dst.Length
      modifies dst
      ensures Stored(old(dst[..]), dst[..], Offset(slot, fingerprintSize + payloadSize),
                     EntryBytes(e.fingerprint, e.payload, fingerprintSize, payloadSize))
    {
      hide Stored, Offset, EntryBytes, Pow2;
      var entrySize := fingerprintSize + payloadSize;
      if entrySize in {1, 4, 5, 8} {
        WriteEntry(dst, slot, entrySize, e.fingerprint, e.payload, fingerprintSize);
      } else {
        WriteEntryGeneric(dst, slot, entrySize, e.fingerprint, e.payload, fingerprintSize);
      }
    }

    // The entry at position p of bucket b.
    method EncodeOne(dst: array<Byte>, b: nat, p: nat, pilot: Byte, numSlots: nat, ghost st: State)
      requires Grouped() && b < |buckets| && p < |buckets[b]|
      requires Inv(TheBlock(), st) && RemapsOnto(remap, keysInBlock, st.owner.Keys)
      requires TheBlock().buckets == buckets && TheBlock().hash == g.hash && TheBlock().numSlots == numSlots
      requires keysInBlock + |remap| == numSlots
      requires (forall c :: 0 <= c < |buckets| ==> c in st.pilots) && st.pilots[b] == pilot
      requires Offset(keysInBlock, fingerprintSize + payloadSize) <= dst.Length
      requires StoredBefore(dst[..], TheBlock(), st, remap, keysInBlock, b, p, fingerprintSize, payloadSize)
      modifies dst
      ensures StoredBefore(dst[..], TheBlock(), st, remap, keysInBlock, b, p + 1, fingerprintSize, payloadSize)
    {
      ghost var B := TheBlock();
      hide *;
      var e := buckets[b][p];
      PlaceComputed(B, st, remap, keysInBlock, b, p);
      EntryFits(b, p);
      var slot := g.hash(e.Input(), pilot, numSlots);
      if slot >= keysInBlock {
        slot := remap[slot - keysInBlock];
      }
      OffsetFits(slot, keysInBlock, fingerprintSize + payloadSize);
      ghost var before := dst[..];
      WriteOne(dst, slot, e);
      StoredOneMore(before, dst[..], B, st, remap, keysInBlock, b, p, fingerprintSize, payloadSize);
    }

    /** One pass over the buckets; every entry goes to its key's final slot. */
    method EncodePayloads(dst: array<Byte>, pilots: array<Byte>, ghost st: State)
      requires Grouped() && Solved(g, added, st) && dst != pilots
      requires remap == TableOf(st, keysInBlock, g.numSlotsOf(keysInBlock))
      requires PilotsIn(pilots[..], st)
      requires Offset(keysInBlock, fingerprintSize + payloadSize) <= dst.Length
      modifies dst
      ensures g.Valid() && PilotsWritable(g, st) && StoresAll(dst[..], g, added, st, fingerprintSize, payloadSize)
    {
      ghost var B := TheBlock();
      var n, numSlots := keysInBlock, g.numSlotsOf(keysInBlock);
      EncodeFacts(g, added, st);
      GroupedIs();
      PilotsAre(pilots[..], st);
      hide *;
      NothingBefore(dst[..], B, st, remap, n, fingerprintSize, payloadSize);
      for b := 0 to |buckets|
        invariant StoredBefore(dst[..], B, st, remap, n, b, 0, fingerprintSize, payloadSize)
      {
        var pilot := pilots[b];
        for p := 0 to |buckets[b]|
          invariant StoredBefore(dst[..], B, st, remap, n, b, p, fingerprintSize, payloadSize)
        {
          EncodeOne(dst, b, p, pilot, numSlots, st);
        }
        NextBucket(dst[..], B, st, remap, n, b, fingerprintSize, payloadSize);
      }
      StoredIsStoresAll(dst[..], g, added, st, fingerprintSize, payloadSize);
    }

    lemma GroupedIs()
      requires Grouped()
      ensures g.Valid() && |buckets| == g.numBuckets && buckets == Buckets(g, added) && keysInBlock == |added|
      ensures TheBlock().buckets == buckets && TheBlock() == BlockOf(g, added) && TheBlock().hash == g.hash
      ensures TheBlock().numSlots == g.numSlotsOf(keysInBlock)
    {
    }

    lemma EntryFits(b: nat, p: nat)
      requires Grouped() && b < |buckets| && p < |buckets[b]|
      ensures buckets[b][p].fingerprint < Pow2(8 * fingerprintSize)
    {
      EntryInBucket(g, added, b, p);
    }

    // ---------- The block ----------

    // Metadata and payloads of a solved block are in place.
    ghost predicate Written(st: State, built: Built, metadata: seq<Byte>, payloads: seq<Byte>)
      reads `added
      requires g.Valid()
    {
      && Solved(g, added, st) && PilotsWritable(g, st)
      && built == Built(|Metadata(g, st, |added|)|, Offset(|added|, fingerprintSize + payloadSize), |added|)
      && built.metadataLen <= |metadata| && metadata[..built.metadataLen] == Metadata(g, st, |added|)
      && (fingerprintSize + payloadSize > 0 ==> StoresAll(payloads, g, added, st, fingerprintSize, payloadSize))
    }

    /** Builds the block into the caller's buffers: the solved block's metadata and
        payloads, or the error of the solve. */
    method BuildSeparatedInto(metadataDst: array<Byte>, payloadsDst: array<Byte>) returns (r: Result<Built, Error>)
      requires Valid() && metadataDst != payloadsDst
      requires MaxMetadataSizeForCurrentBlock() <= metadataDst.Length
      requires Offset(keysInBlock, fingerprintSize + payloadSize) <= payloadsDst.Length
      modifies `remap, solver, solver.heap, metadataDst, payloadsDst
      ensures Valid()
      ensures keysInBlock == 0 ==>
                && r == Ok(Built(|EmptyMetadata(g)|, 0, 0)) && |EmptyMetadata(g)| <= metadataDst.Length
                && metadataDst[..|EmptyMetadata(g)|] == EmptyMetadata(g)
      ensures keysInBlock > maxKeysPerBlock || (keysInBlock > 0 && g.numSlotsOf(keysInBlock) >= 0x1_0000) ==>
                keysInBlock == 0 || r == Err(BlockOverflow)
      ensures 0 < keysInBlock <= maxKeysPerBlock && g.numSlotsOf(keysInBlock) < 0x1_0000 ==>
                && IsOrder(Sizes(TheBlock()), solver.bucketOrder)
                && match Outcome()
                   case Err(e) => r == Err(e)
                   case Ok(st) => r.Ok? && Written(st, r.value, metadataDst[..], payloadsDst[..])
    {
      hide *;
      ValidIs();
      if keysInBlock == 0 {
        var n := BuildEmptyMetadataInto(metadataDst);
        return Ok(Built(n, 0, 0));
      }
      if keysInBlock > maxKeysPerBlock {
        return Err(BlockOverflow);
      }
      var err := SolveBlock(metadataDst);
      if err.Some? {
        return Err(err.value);
      }
      OutcomeSolved();
      r := EncodeBlock(metadataDst, payloadsDst, Outcome().value);
    }

    // Encodes a solved block.
    method EncodeBlock(metadataDst: array<Byte>, payloadsDst: array<Byte>, ghost st: State) returns (r: Result<Built, Error>)
      requires Valid() && metadataDst != payloadsDst && keysInBlock > 0 && Solved(g, added, st)
      requires remap == TableOf(st, keysInBlock, g.numSlotsOf(keysInBlock))
      requires EstimateMetadataSize(g, keysInBlock) <= metadataDst.Length
      requires Offset(keysInBlock, fingerprintSize + payloadSize) <= payloadsDst.Length
      requires PilotsIn(metadataDst[..], st)
      modifies metadataDst, payloadsDst
      ensures r.Ok? && Written(st, r.value, metadataDst[..], payloadsDst[..])
    {
      hide *;
      ValidIs();
      var metadataLen := EncodeMetadataInto(metadataDst, st);
      ghost var metadata := metadataDst[..];
      if fingerprintSize + payloadSize > 0 {
        EncodePayloads(payloadsDst, metadataDst, st);
      }
      assert metadataDst[..] == metadata && metadata[..metadataLen] == metadataDst[..metadataLen];
      var built := Built(metadataLen, keysInBlock * (fingerprintSize + payloadSize), keysInBlock);
      OffsetIs(keysInBlock, fingerprintSize + payloadSize);
      WrittenIs(st, built, metadataDst[..], payloadsDst[..]);
      return Ok(built);
    }

    lemma OffsetIs(n: nat, size: nat)
      ensures Offset(n, size) == n * size
    {
    }

    lemma WrittenIs(st: State, built: Built, metadata: seq<Byte>, payloads: seq<Byte>)
      requires g.Valid() && Solved(g, added, st) && PilotsWritable(g, st)
      requires built == Built(|Metadata(g, st, |added|)|, Offset(|added|, fingerprintSize + payloadSize), |added|)
      requires built.metadataLen <= |metadata| && metadata[..built.metadataLen] == Metadata(g, st, |added|)
      requires fingerprintSize + payloadSize > 0 ==> StoresAll(payloads, g, added, st, fingerprintSize, payloadSize)
      ensures Written(st, built, metadata, payloads)
    {
      hide Solved, Metadata, StoresAll;
    }

    method BuildEmptyMetadataInto(dst: array<Byte>) returns (n: nat)
      requires g.numBuckets + 2 <= dst.Length
      modifies dst
      ensures n == |EmptyMetadata(g)| <= dst.Length && dst[..n] == EmptyMetadata(g)
    {
      EmptyRemap();
      for i := 0 to g.numBuckets
        invariant forall k :: 0 <= k < i ==> dst[k] == 0
      {
        dst[i] := 0;
      }
      dst[g.numBuckets] := 0;
      dst[g.numBuckets + 1] := 0;
      return g.numBuckets + REMAP_HEADER;
    }

    // The pilots are there already; the remap table follows them.
    method EncodeMetadataInto(dst: array<Byte>, ghost st: State) returns (n: nat)
      requires Grouped() && Solved(g, added, st)
      requires remap == TableOf(st, keysInBlock, g.numSlotsOf(keysInBlock))
      requires EstimateMetadataSize(g, keysInBlock) <= dst.Length && keysInBlock > 0
      requires PilotsIn(dst[..], st)
      modifies dst
      ensures PilotsWritable(g, st) && n == |Metadata(g, st, keysInBlock)| <= dst.Length
      ensures dst[..n] == Metadata(g, st, keysInBlock)
      ensures PilotsIn(dst[..], st)
    {
      hide *;
      SolvedFacts(g, added, st);
      GroupedIs();
      PilotsAre(dst[..], st);
      EstimateFits(g, st, keysInBlock);
      ghost var before := dst[..g.numBuckets];
      var len := EncodeRemapTableInto(remap, dst, g.numBuckets);
      n := g.numBuckets + len;
      assert dst[..n] == before + dst[g.numBuckets..n];
      assert forall b :: 0 <= b < g.numBuckets ==> dst[b] == before[b];
      MetadataIs(g, st, keysInBlock, before);
      PilotsAre(dst[..], st);
    }

    lemma PilotsAre(metadata: seq<Byte>, st: State)
      ensures PilotsIn(metadata, st) <==>
        g.numBuckets <= |metadata| && forall b :: 0 <= b < g.numBuckets ==> b in st.pilots && metadata[b] == st.pilots[b]
    {
    }

    lemma ValidIs()
      requires Valid()
      ensures Grouped() && g.Valid() && keysInBlock == |added|
      ensures MaxMetadataSizeForCurrentBlock() == EstimateMetadataSize(g, keysInBlock) >= g.numBuckets + 2
    {
    }

    lemma OutcomeSolved()
      requires Valid() && keysInBlock > 0 && IsOrder(Sizes(TheBlock()), solver.bucketOrder)
      ensures Outcome().Ok? ==> Solved(g, added, Outcome().value)
    {
      AttemptsSolve(g, added, solver.bucketOrder, rngOf, 0, MAX_GLOBAL_RETRIES);
      hide Solved, Attempts;
    }
  }
}
