/** Every step of the PTRHash solver keeps the cuckoo invariant and makes
    progress. */
module PtrInvariant {
  import opened Basics
  import opened PtrSpec

  // ---------- Reading the invariant ----------

  lemma PilotFacts(B: Block, st: State, b: nat)
    requires Inv(B, st) && b in st.pilots
    ensures b < |B.buckets| && st.pilots[b] < NUM_PILOT_VALUES && NoDup(B.Slots(b, st.pilots[b]))
  {
  }

  lemma SlotOwned(B: Block, st: State, b: nat, s: nat)
    requires Inv(B, st) && b in st.pilots && b < |B.buckets| && s in B.Slots(b, st.pilots[b])
    ensures s in st.owner && st.owner[s] == b
  {
    assert s in Claims(B, st.pilots)[b];
  }

  lemma OwnerClaims(B: Block, st: State, s: nat)
    requires Inv(B, st) && s in st.owner
    ensures var b := st.owner[s];
            b in st.pilots && b < |B.buckets| && s in B.Slots(b, st.pilots[b])
  {
    assert s in Claims(B, st.pilots)[st.owner[s]];
  }

  // ---------- Keeping the invariant ----------

  // Placing a bucket on slots cleared of their owners keeps the partition.
  lemma PartitionStep(claims: map<nat, set<nat>>, owner: map<nat, nat>, slots: seq<nat>, b: nat)
    requires Partition(claims, owner) && b !in claims
    ensures var gone := Evicted(owner, slots);
            Partition((claims - gone)[b := set s | s in slots], Place(Unowned(owner, gone), slots, b))
  {
  }

  lemma ClaimsStep(B: Block, pilots: map<nat, nat>, gone: set<nat>, b: nat, p: nat)
    requires b < |B.buckets|
    ensures Claims(B, (pilots - gone)[b := p]) == (Claims(B, pilots) - gone)[b := SlotSet(B, b, p)]
  {
  }

  // No pinned bucket gives way, and every bucket that gives way was processed.
  lemma EvictedProcessed(B: Block, st: State, slots: seq<nat>)
    requires Inv(B, st) && !HitsPinned(st, slots)
    ensures Evicted(st.owner, slots) <= st.pilots.Keys
    ensures forall o :: o in Evicted(st.owner, slots) ==> o < |B.buckets| && B.Size(o) > 0 && o !in st.ring
  {
    forall o | o in Evicted(st.owner, slots)
      ensures o in st.pilots && B.Size(o) > 0 && o !in st.ring
    {
      var s :| s in slots && s in st.owner && st.owner[s] == o;
      assert o in Claims(B, st.pilots) && s in Claims(B, st.pilots)[o];
      assert s in B.Slots(o, st.pilots[o]);
    }
  }

  lemma RingStep(st: State, gone: set<nat>, b: nat, p: nat)
    requires RingInv(st) && b !in st.pilots
    requires forall o :: o in gone ==> o !in st.ring
    ensures RingInv(st.(pilots := (st.pilots - gone)[b := p],
                        ring := st.ring[st.ringIdx := b],
                        ringIdx := (st.ringIdx + 1) % PINNED_SIZE))
  {
  }

  lemma PilotsStep(B: Block, pilots: map<nat, nat>, gone: set<nat>, b: nat, p: nat)
    requires PilotsInv(B, pilots)
    requires b < |B.buckets| && p < NUM_PILOT_VALUES && NoDup(B.Slots(b, p))
    ensures PilotsInv(B, (pilots - gone)[b := p])
  {
  }

  lemma DisplaceInv(B: Block, st: State, b: nat, p: nat)
    requires Inv(B, st) && Open(B, st, b)
    requires p < NUM_PILOT_VALUES && Clear(st, B.Slots(b, p))
    ensures Inv(B, Displace(B, st, b, p))
  {
    var slots := B.Slots(b, p);
    var gone := Evicted(st.owner, slots);
    var st' := Displace(B, st, b, p);
    EvictedProcessed(B, st, slots);
    PilotsStep(B, st.pilots, gone, b, p);
    assert Partition(Claims(B, st'.pilots), st'.owner) by {
      ClaimsStep(B, st.pilots, gone, b, p);
      PartitionStep(Claims(B, st.pilots), st.owner, slots, b);
    }
    assert RingInv(st') by { RingStep(st, gone, b, p); }
    assert PendingInv(B, st');
  }

  // A Phase-1 placement is a displacement that displaces nothing.
  lemma PlaceFree(B: Block, st: State, b: nat, p: nat)
    requires Inv(B, st) && Open(B, st, b)
    requires p < NUM_PILOT_VALUES && Fits(st.owner, B.Slots(b, p))
    ensures Inv(B, st.(pilots := st.pilots[b := p], owner := Place(st.owner, B.Slots(b, p), b)))
  {
    var slots := B.Slots(b, p);
    assert st.pilots - {} == st.pilots;
    PilotsStep(B, st.pilots, {}, b, p);
    assert Partition(Claims(B, st.pilots[b := p]), Place(st.owner, slots, b)) by {
      assert Evicted(st.owner, slots) == {};
      assert Unowned(st.owner, {}) == st.owner;
      ClaimsStep(B, st.pilots, {}, b, p);
      PartitionStep(Claims(B, st.pilots), st.owner, slots, b);
      assert Claims(B, st.pilots) - {} == Claims(B, st.pilots);
    }
  }

  // A Phase-2 placement always evicts: with nothing to evict, Phase 1 would have succeeded.
  lemma DisplaceEvicts(B: Block, st: State, b: nat, p: nat)
    requires b < |B.buckets| && p < NUM_PILOT_VALUES
    requires FreePilot(B, st.owner, b, 0).None?
    requires NoDup(B.Slots(b, p))
    ensures |Evicted(st.owner, B.Slots(b, p))| >= 1
  {
    var slots := B.Slots(b, p);
    assert !Fits(st.owner, slots);
    var s :| s in slots && s in st.owner;
    assert st.owner[s] in Evicted(st.owner, slots);
  }

  // The processed and pending buckets of `st'` are those of `st` and `b`.
  ghost predicate Visits(st: State, st': State, b: nat) {
    forall c :: c in st'.pilots || c in st'.pending <==> c in st.pilots || c in st.pending || c == b
  }

  // The placement moves buckets between processed and pending, and adds only `b`.
  lemma DisplaceVisited(B: Block, st: State, b: nat, p: nat)
    requires Inv(B, st) && Open(B, st, b)
    requires Clear(st, B.Slots(b, p))
    ensures var st' := Displace(B, st, b, p);
            Visits(st, st', b)
  {
    var gone := Evicted(st.owner, B.Slots(b, p));
    EvictedProcessed(B, st, B.Slots(b, p));
  }

  ghost predicate Progress(st: State, st': State) {
    || (st'.pending == st.pending && st'.evictions == st.evictions)
    || st'.evictions > st.evictions
  }

  /** One call on an open bucket keeps the invariant and processes the bucket.
      It either leaves evictions and the heap alone, or raises evictions by the
      number of buckets it pushes, at least one. */
  lemma ProcessStep(B: Block, st: State, b: nat, rng: nat -> nat)
    requires Inv(B, st) && Open(B, st, b)
    ensures var r := Process(B, st, b, rng);
            r.Ok? ==>
              && Inv(B, r.value)
              && b in r.value.pilots
              && Visits(st, r.value, b)
              && Progress(st, r.value)
  {
    match FreePilot(B, st.owner, b, 0)
    case Some(p) =>
      PlaceFree(B, st, b, p);
    case None =>
      var best := BestPilot(B, st, b, rng(st.draws) % NUM_PILOT_VALUES);
      if best.found {
        DisplaceInv(B, st, b, best.pilot);
        DisplaceEvicts(B, st, b, best.pilot);
        DisplaceVisited(B, st, b, best.pilot);
      }
  }
}
