/** The PTRHash block solver as it runs: generation-tagged slot and bucket
    arrays, a pin ring with a shadow bitvector, and an eviction heap, proved
    against the functions of PtrSpec and PtrSolve. */
module PtrSolver {
  import opened Basics
  import opened Words
  import opened PtrSpec
  import opened PtrInvariant
  import opened PtrSolve
  import opened PtrRemap
  import opened PtrBlock
  import opened PtrFields
  import opened CountingSort
  import opened BucketHeap

  class Solver {
    const hash: SlotHash
    const heap: Heap

    var numBuckets: nat
    var numSlots: nat
    var numKeys: nat
    var buckets: seq<seq<Entry>>
    var bucketOrder: seq<nat>

    var pilots: array<Byte>
    var slotOwner: seq<nat>
    var slotGen: seq<nat>
    var processedGen: seq<nat>
    var generation: nat

    var phase2SlotGen: seq<nat>
    var phase2Gen: nat

    var pinned: seq<int>
    var pinnedBits: seq<Word>
    var pinnedIdx: nat
    var evictions: nat
    var draws: nat

    var slotsBuffer: seq<nat>
    var bestSlots: seq<nat>
    var evictedOwners: seq<nat>

    // Generation 0 means "not taken", so counting starts at 1.
    constructor (hash: SlotHash, maxNumBuckets: nat, maxNumSlots: nat)
      ensures this.hash == hash && fresh(heap) && heap.Valid() && heap.bag == multiset{}
      ensures Idle() && |processedGen| == maxNumBuckets && generation == 1
    {
      this.hash := hash;
      heap := new Heap();
      numBuckets, numSlots, numKeys := 0, 0, 0;
      buckets, bucketOrder := [], [];
      pilots := new Byte[maxNumBuckets];
      slotOwner, slotGen := seq(maxNumSlots, _ => 0), seq(maxNumSlots, _ => 0);
      processedGen, generation := seq(maxNumBuckets, _ => 0), 1;
      phase2SlotGen, phase2Gen := [], 0;
      pinned, pinnedIdx := EMPTY_RING, 0;
      pinnedBits := seq((maxNumBuckets + 63) / 64, _ => ZERO);
      evictions, draws := 0, 0;
      slotsBuffer, bestSlots, evictedOwners := [], [], [];
    }

    function TheBlock(): Block
      reads `buckets, `numSlots
    {
      Block(hash, buckets, numSlots)
    }

    // ---------- Well-formed buffers ----------

    ghost predicate Geometry()
      reads `buckets, `numBuckets, `numSlots, `slotOwner, `slotGen, `phase2SlotGen, `processedGen
      reads `pilots, `slotsBuffer
    {
      && |buckets| == numBuckets <= 0x8000
      && 0 < numSlots <= MAX_UINT16
      && numSlots <= |slotGen| == |slotOwner| && numSlots <= |phase2SlotGen|
      && numBuckets == |processedGen| && numBuckets <= pilots.Length
      && (forall b :: 0 <= b < numBuckets ==> |buckets[b]| <= |slotsBuffer| && |buckets[b]| <= MAX_UINT16)
      && TheBlock().InRange()
    }

    // Every tag is at most its generation, so a later generation finds nothing marked.
    ghost predicate Tags()
      reads `generation, `slotGen, `processedGen, `phase2Gen, `phase2SlotGen
    {
      && 1 <= generation <= 253
      && (forall s :: 0 <= s < |slotGen| ==> slotGen[s] <= generation)
      && (forall b :: 0 <= b < |processedGen| ==> processedGen[b] <= generation)
      && phase2Gen < 0x1_0000_0000
      && (forall s :: 0 <= s < |phase2SlotGen| ==> phase2SlotGen[s] <= phase2Gen)
    }

    predicate Taken(slot: nat)
      reads this
      requires slot < |slotGen|
    {
      slotGen[slot] == generation
    }

    // ---------- Duplicate checks ----------

    /** Uses generation + 1 as a temporary mark and takes every mark back. */
    method HasNoDuplicateSlots(slots: seq<nat>) returns (ok: bool)
      requires Tags()
      requires forall i :: 0 <= i < |slots| ==> slots[i] < |slotGen| && !Taken(slots[i])
      modifies `slotGen
      ensures ok == NoDup(slots)
      ensures Tags() && SameMarks(old(slotGen), slotGen, generation)
    {
      var localGen := (generation + 1) % 256;
      var n := |slots|;
      var i := 0;
      while i < n
        invariant 0 <= i <= n && |slotGen| == |old(slotGen)|
        invariant NoDup(slots[..i])
        invariant forall s :: 0 <= s < |slotGen| ==>
          slotGen[s] == if s in slots[..i] then localGen else old(slotGen[s])
      {
        var slot := slots[i];
        if slotGen[slot] == localGen {
          var k :| 0 <= k < i && slots[k] == slot;
          Unmark(slots, i, localGen, old(slotGen));
          return false;
        }
        slotGen := slotGen[slot := localGen];
        i := i + 1;
      }
      assert slots[..n] == slots;
      Unmark(slots, n, localGen, old(slotGen));
      return true;
    }

    // Resets the marks on the first n slots to 0.
    method Unmark(slots: seq<nat>, n: nat, mark: nat, ghost before: seq<nat>)
      requires n <= |slots| && |slotGen| == |before|
      requires forall i :: 0 <= i < |slots| ==> slots[i] < |slotGen| && before[slots[i]] != generation
      requires 1 <= generation && mark != generation
      requires forall s :: 0 <= s < |slotGen| ==> slotGen[s] == if s in slots[..n] then mark else before[s]
      modifies `slotGen
      ensures |slotGen| == |before|
      ensures forall s :: 0 <= s < |slotGen| ==> slotGen[s] == if s in slots[..n] then 0 else before[s]
    {
      for j := 0 to n
        invariant |slotGen| == |before|
        invariant forall s :: 0 <= s < |slotGen| ==>
          slotGen[s] == if s in slots[..j] then 0 else if s in slots[..n] then mark else before[s]
      {
        slotGen := slotGen[slots[j] := 0];
      }
    }

    /** Uses its own counter; on the uint32 wrap the marks are cleared. */
    method HasNoDuplicateSlotsPhase2(slots: seq<nat>) returns (ok: bool)
      requires Tags()
      requires forall i :: 0 <= i < |slots| ==> slots[i] < |phase2SlotGen|
      modifies `phase2SlotGen, `phase2Gen
      ensures ok == NoDup(slots)
      ensures Tags() && |phase2SlotGen| == |old(phase2SlotGen)|
    {
      phase2Gen := (phase2Gen + 1) % 0x1_0000_0000;
      if phase2Gen == 0 {
        phase2SlotGen := seq(|phase2SlotGen|, _ => 0);
        phase2Gen := 1;
      }
      var localGen := phase2Gen;
      for i := 0 to |slots|
        invariant phase2Gen == localGen < 0x1_0000_0000
        invariant |phase2SlotGen| == |old(phase2SlotGen)|
        invariant forall s :: 0 <= s < |phase2SlotGen| ==> phase2SlotGen[s] <= localGen
        invariant forall s :: 0 <= s < |phase2SlotGen| ==> (phase2SlotGen[s] == localGen <==> s in slots[..i])
        invariant NoDup(slots[..i])
      {
        var slot := slots[i];
        if phase2SlotGen[slot] == localGen {
          var k :| 0 <= k < i && slots[k] == slot;
          return false;
        }
        phase2SlotGen := phase2SlotGen[slot := localGen];
      }
      assert slots[..|slots|] == slots;
      return true;
    }

    // ---------- Phase 1 ----------

    // Everything the searches may count on.
    ghost predicate Ready()
      reads `buckets, `numBuckets, `numSlots, `slotOwner, `slotGen, `phase2SlotGen, `phase2Gen, `processedGen
      reads `pilots, `slotsBuffer, `generation
    {
      Geometry() && Tags()
    }

    /** Fills `buffer` with the slots of `bucket` in chunks of four and stops at
        the first chunk that meets a taken slot.  The occupancy array and its
        generation are hoisted into parameters. */
    static method ComputeSlotsChecked(slots: seq<nat>, slotGen: seq<nat>, generation: nat, buffer: seq<nat>)
      returns (anyTaken: bool, filled: seq<nat>)
      requires |slots| <= |buffer|
      requires forall i :: 0 <= i < |slots| ==> slots[i] < |slotGen| && slots[i] < 0x1_0000
      ensures |filled| == |buffer|
      ensures anyTaken <==> exists i :: 0 <= i < |slots| && slotGen[slots[i]] == generation
      ensures !anyTaken ==> filled[..|slots|] == slots
    {
      filled := buffer;
      var n := |slots|;
      var r := (n / 4) * 4;
      var i := 0;
      while i < r
        invariant 0 <= i <= r && i % 4 == 0 && |filled| == |buffer|
        invariant forall k :: 0 <= k < i ==> filled[k] == slots[k] && slotGen[slots[k]] != generation
      {
        filled := filled[i := slots[i] % 0x1_0000][i + 1 := slots[i + 1] % 0x1_0000]
                        [i + 2 := slots[i + 2] % 0x1_0000][i + 3 := slots[i + 3] % 0x1_0000];
        var t0, t1 := slotGen[filled[i]] == generation, slotGen[filled[i + 1]] == generation;
        var t2, t3 := slotGen[filled[i + 2]] == generation, slotGen[filled[i + 3]] == generation;
        if t0 || t1 || t2 || t3 {
          return true, filled;
        }
        i := i + 4;
      }
      while i < n
        invariant r <= i <= n && |filled| == |buffer|
        invariant forall k :: 0 <= k < i ==> filled[k] == slots[k] && slotGen[slots[k]] != generation
      {
        filled := filled[i := slots[i] % 0x1_0000];
        if slotGen[filled[i]] == generation {
          return true, filled;
        }
        i := i + 1;
      }
      return false, filled;
    }

    // One pilot for a bucket of any size.
    method TryPilotSlice(b: nat, pilot: nat, ghost owner: map<nat, nat>) returns (fits: bool, slots: seq<nat>)
      requires Ready() && b < numBuckets
      requires Marks(owner, slotGen, generation, numSlots)
      modifies `slotsBuffer, `slotGen
      ensures Tags() && SameMarks(old(slotGen), slotGen, generation) && |slotsBuffer| == |old(slotsBuffer)|
      ensures fits == Fits(owner, TheBlock().Slots(b, pilot))
      ensures fits ==> slots == TheBlock().Slots(b, pilot)
    {
      var B := TheBlock();
      slots := B.Slots(b, pilot);
      BlockSlotsInRange(B, b, pilot);
      FitsByMarks(B, owner, slotGen, generation, slots);
      hide Fits;
      var anyTaken;
      anyTaken, slotsBuffer := ComputeSlotsChecked(slots, slotGen, generation, slotsBuffer);
      if anyTaken {
        return false, [];
      }
      fits := HasNoDuplicateSlots(slots);
      slots := slotsBuffer[..|slots|];
    }

    // For any bucket size.
    method FindFreePilotSlice(b: nat, ghost owner: map<nat, nat>) returns (found: bool, pilot: nat, slots: seq<nat>)
      requires Ready() && b < numBuckets
      requires Marks(owner, slotGen, generation, numSlots)
      modifies `slotsBuffer, `slotGen
      ensures Tags() && SameMarks(old(slotGen), slotGen, generation) && |slotsBuffer| == |old(slotsBuffer)|
      ensures FindsFree(TheBlock(), owner, b, found, pilot, slots)
    {
      var B := TheBlock();
      hide FreePilot, Fits, Marks;
      pilot := 0;
      while pilot < NUM_PILOT_VALUES
        invariant 0 <= pilot <= NUM_PILOT_VALUES
        invariant Tags() && SameMarks(old(slotGen), slotGen, generation) && |slotsBuffer| == |old(slotsBuffer)|
        invariant FreePilot(B, owner, b, pilot) == FreePilot(B, owner, b, 0)
      {
        FreePilotStep(B, owner, b, pilot);
        MarksKept(owner, old(slotGen), slotGen, generation, numSlots);
        found, slots := TryPilotSlice(b, pilot, owner);
        if found {
          return;
        }
        pilot := pilot + 1;
      }
      FreePilotStep(B, owner, b, pilot);
      return false, 0, [];
    }

    // Dispatch by bucket size.
    method FindFreePilot(b: nat, ghost owner: map<nat, nat>) returns (found: bool, pilot: nat, slots: seq<nat>)
      requires Ready() && b < numBuckets && Owns(owner)
      modifies `slotsBuffer, `slotGen
      ensures Ready() && Owns(owner)
      ensures FindsFree(TheBlock(), owner, b, found, pilot, slots)
    {
      var B := TheBlock();
      hide FindsFree;
      if |buckets[b]| == 1 {
        found, pilot, slots := FindFreePilot1(B, b, slotGen, generation, owner);
      } else if |buckets[b]| == 2 {
        found, pilot, slots := FindFreePilot2(B, b, slotGen, generation, owner);
      } else {
        found, pilot, slots := FindFreePilotSlice(b, owner);
      }
    }

    // ---------- What the fields stand for ----------

    // The tagged arrays hold the owner map.
    ghost predicate Owns(owner: map<nat, nat>)
      reads `slotGen, `slotOwner, `generation, `numSlots
    {
      OwnsBy(owner, slotGen, slotOwner, generation, numSlots)
    }

    // The ring and its bitvector agree.
    ghost predicate Pins(ring: seq<int>)
      reads `pinned, `pinnedBits, `numBuckets
    {
      PinsBy(ring, pinned, pinnedBits, numBuckets)
    }

    ghost function Snapshot(): Fields
      reads `processedGen, `generation, `numBuckets, `slotGen, `slotOwner, `numSlots, `pinned, `pinnedBits
      reads `pinnedIdx, `evictions, `draws, `buckets, `pilots, pilots, heap`bag
    {
      Fields(buckets, numSlots, generation, pilots[..], processedGen, slotGen, slotOwner,
             pinned, pinnedBits, pinnedIdx, evictions, draws, heap.bag)
    }

    // ---------- Phase 2 ----------

    // The owners and pins Phase 2 consults.
    ghost predicate Searchable(st: State)
      reads `slotGen, `slotOwner, `generation, `numSlots, `pinned, `pinnedBits, `numBuckets, `buckets
    {
      && numBuckets == |buckets|
      && Owns(st.owner) && Pins(st.ring)
      && forall s :: s in st.owner ==> st.owner[s] < numBuckets
    }

    function GetOwner(slot: nat): int
      reads this
      requires slot < |slotGen| && slot < |slotOwner|
    {
      if slotGen[slot] != generation then -1 else slotOwner[slot]
    }

    predicate IsPinned(b: nat)
      reads this
      requires b < 64 * |pinnedBits|
    {
      And(pinnedBits[b / 64], Bit(b % 64)) != ZERO
    }

    /** Adds up the cost slot by slot, giving up at a pinned owner or once the cost
        reaches `bestScore`. */
    method ScoreSlots(slots: seq<nat>, bestScore: nat, ghost st: State) returns (viable: bool, score: nat)
      requires Searchable(st)
      requires forall i :: 0 <= i < |slots| ==> slots[i] < numSlots
      ensures viable ==> score == Score(TheBlock(), st.owner, slots)
      ensures (viable && score < bestScore) ==
              (!HitsPinned(st, slots) && Score(TheBlock(), st.owner, slots) < bestScore)
    {
      ghost var B := TheBlock();
      score := 0;
      for i := 0 to |slots|
        invariant score == Score(B, st.owner, slots[..i])
        invariant !HitsPinned(st, slots[..i])
      {
        var slot := slots[i];
        ScoreStep(B, st, slots, i);
        var owner := GetOwner(slot);
        if owner < 0 {
          continue;
        }
        PinTest(pinnedBits, owner);
        if IsPinned(owner) {
          assert slot in slots && slot in st.owner && st.owner[slot] in st.ring;
          return false, score;
        }
        var ownerSize := |buckets[owner]|;
        score := score + ownerSize * ownerSize;
        if score >= bestScore {
          ScoreGrows(B, st.owner, slots, i + 1);
          return false, score;
        }
      }
      assert slots[..|slots|] == slots;
      return true, score;
    }

    /** One pilot of the Phase-2 scan: cost first, then internal duplicates. */
    method TryPilotPhase2(b: nat, pilot: nat, bestScore: nat, ghost best: Best, ghost st: State)
      returns (improves: bool, score: nat, slots: seq<nat>)
      requires Ready() && b < numBuckets
      requires Searchable(st)
      requires best.score == bestScore
      modifies `phase2SlotGen, `phase2Gen
      ensures Ready()
      ensures slots == TheBlock().Slots(b, pilot)
      ensures improves == Improves(TheBlock(), st, slots, best)
      ensures improves ==> score == Score(TheBlock(), st.owner, slots)
    {
      slots := TheBlock().Slots(b, pilot);
      BlockSlotsInRange(TheBlock(), b, pilot);
      hide Score, HitsPinned, NoDup;
      var viable;
      viable, score := ScoreSlots(slots, bestScore, st);
      if !viable {
        return false, score, slots;
      }
      var ok := HasNoDuplicateSlotsPhase2(slots);
      return ok && score < bestScore, score, slots;
    }

    /** The 256 pilots from `p0` on, cyclically; stops early at a cost no placement
        could beat.  An empty `bestSlots` means no pilot would do. */
    method FindBestPilot(b: nat, p0: nat, ghost st: State) returns (best: Best)
      requires Ready() && b < numBuckets && |buckets[b]| > 0
      requires Searchable(st)
      modifies `phase2SlotGen, `phase2Gen, `bestSlots
      ensures Ready()
      ensures best == BestPilot(TheBlock(), st, b, p0) && HoldsBest(TheBlock(), b, best, bestSlots)
    {
      ghost var B := TheBlock();
      best := Best(false, 0, MAX_INT);
      bestSlots := [];
      BestPilotStarts(B, st, b, p0);
      hide *;
      for delta := 0 to NUM_PILOT_VALUES
        invariant Ready()
        invariant Scan(B, st, b, p0, delta, best) == BestPilot(B, st, b, p0)
        invariant HoldsBest(B, b, best, bestSlots)
      {
        var pilot := (p0 + delta) % NUM_PILOT_VALUES;
        var improves, score, slots := TryPilotPhase2(b, pilot, best.score, best, st);
        if improves {
          ScanTakes(B, st, b, p0, delta, best, score);
          BestHeld(B, b, pilot, score);
          best := Best(true, pilot, score);
          bestSlots := slots;
          if score <= |buckets[b]| * |buckets[b]| {
            return;
          }
        } else {
          ScanSkips(B, st, b, p0, delta, best);
        }
      }
      ScanEnds(B, st, b, p0, best);
    }

    // ---------- Eviction and placement ----------

    /** The distinct owners of the slots, in the order they are met. */
    method CollectOwners(slots: seq<nat>, b: nat, ghost st: State)
      requires Owns(st.owner)
      requires forall i :: 0 <= i < |slots| ==> slots[i] < numSlots
      requires forall s :: s in st.owner ==> st.owner[s] < 0x1_0000 && st.owner[s] != b
      modifies `evictedOwners
      ensures NoDup(evictedOwners)
      ensures Elements(evictedOwners) == Evicted(st.owner, slots)
    {
      evictedOwners := [];
      for i := 0 to |slots|
        invariant NoDup(evictedOwners)
        invariant forall o :: o in evictedOwners ==> o in Evicted(st.owner, slots)
        invariant forall k :: 0 <= k < i && slots[k] in st.owner ==> st.owner[slots[k]] in evictedOwners
      {
        var owner := GetOwner(slots[i]);
        if owner >= 0 && owner != b {
          var owner16 := owner % 0x1_0000;
          if owner16 !in evictedOwners {
            evictedOwners := evictedOwners + [owner16];
          }
        }
      }
      forall o | o in Evicted(st.owner, slots) ensures o in evictedOwners {
        var s :| s in slots && s in st.owner && st.owner[s] == o;
        var k :| 0 <= k < |slots| && slots[k] == s;
      }
    }

    /** Frees the bucket's slots, but only those it still owns. */
    method EvictBucket(b: nat, ghost owner: map<nat, nat>)
      requires Ready() && b < numBuckets && Owns(owner)
      requires forall s :: s in owner && owner[s] == b ==> s in TheBlock().Slots(b, pilots[b])
      modifies `slotGen
      ensures Ready()
      ensures Owns(Unowned(owner, {b}))
    {
      var slots := TheBlock().Slots(b, pilots[b]);
      BlockSlotsInRange(TheBlock(), b, pilots[b]);
      ghost var before := slotGen;
      slotGen := FreeOwned(slotGen, slotOwner, slots, b, generation);
      FreedOwns(owner, before, slotGen, slotOwner, slots, b, generation, numSlots);
    }

    method PlaceBucket(b: nat, pilot: Byte, slots: seq<nat>, ghost owner: map<nat, nat>)
      requires Ready() && b < numBuckets && Owns(owner)
      requires forall i :: 0 <= i < |slots| ==> slots[i] < numSlots
      modifies `slotGen, `slotOwner, pilots
      ensures Ready() && Owns(Place(owner, slots, b))
      ensures pilots[..] == old(pilots[..])[b := pilot % 256]
    {
      pilots[b] := pilot % 256;
      slotGen, slotOwner := MarkOwned(slotGen, slotOwner, slots, b, generation, owner, numSlots);
    }

    method SetProcessed(b: nat)
      requires Ready() && b < numBuckets
      modifies `processedGen
      ensures Ready() && processedGen == old(processedGen)[b := generation]
    {
      processedGen := processedGen[b := generation];
    }

    // Any tag other than the generation means unprocessed.
    method ClearProcessed(b: nat)
      requires Ready() && b < numBuckets
      modifies `processedGen
      ensures Ready() && processedGen == old(processedGen)[b := 0]
    {
      processedGen := processedGen[b := 0];
    }

    lemma ReadyFacts(b: nat)
      requires Ready() && b < numBuckets
      ensures generation > 0 && numBuckets == |buckets| && b % 0x1_0000 == b
      ensures |buckets[b]| % 0x1_0000 == |buckets[b]|
    {
    }

    lemma SnapshotIs()
      ensures Snapshot() == Fields(buckets, numSlots, generation, pilots[..], processedGen, slotGen, slotOwner,
                                   pinned, pinnedBits, pinnedIdx, evictions, draws, heap.bag)
    {
    }

    lemma OwnsIs(owner: map<nat, nat>)
      ensures Owns(owner) <==> OwnsBy(owner, slotGen, slotOwner, generation, numSlots)
    {
    }

    lemma RepresentsFacts(st: State)
      requires Represents(Snapshot(), st)
      ensures Owns(st.owner)
      ensures forall b :: b in st.pilots ==> b < |buckets| && b < pilots.Length && pilots[b] == st.pilots[b]
    {
    }

    // One owner gives way: its slots, its processed mark, its place in the heap.
    method EvictOwner(o: nat, ghost st: State)
      requires Ready() && heap.Valid() && Represents(Snapshot(), st)
      requires o in st.pilots && o < numBuckets && o !in st.pending
      requires forall s :: s in st.owner && st.owner[s] == o ==> s in TheBlock().Slots(o, st.pilots[o])
      modifies `slotGen, `processedGen, `evictions, heap
      ensures Ready() && heap.Valid() && Represents(Snapshot(), EvictedState(st, o))
    {
      hide *;
      ReadyFacts(o);
      RepresentsFacts(st);
      SnapshotIs();
      ghost var f := Snapshot();
      EvictBucket(o, st.owner);
      ClearProcessed(o);
      heap.Push(o, |buckets[o]|);
      evictions := evictions + 1;
      SnapshotIs();
      OwnsIs(Unowned(st.owner, {o}));
      assert pilots[..] == f.pilots;
      EvictRepresents(f, Snapshot(), st, o);
    }

    /** Every collected owner gives way, one after the other. */
    method EvictOwners(ghost st: State)
      requires Ready() && heap.Valid() && Represents(Snapshot(), st) && Inv(TheBlock(), st)
      requires NoDup(evictedOwners) && forall k :: 0 <= k < |evictedOwners| ==> evictedOwners[k] in st.pilots
      requires numBuckets == |buckets|
      modifies `slotGen, `processedGen, `evictions, heap
      ensures Ready() && heap.Valid() && Represents(Snapshot(), AfterEvicting(st, evictedOwners))
    {
      ghost var B := TheBlock();
      EvictNone(st, evictedOwners);
      hide *;
      for i := 0 to |evictedOwners|
        invariant Ready() && heap.Valid()
        invariant Represents(Snapshot(), AfterEvicting(st, evictedOwners[..i]))
      {
        EvictNext(B, st, evictedOwners, i);
        BlockBuckets();
        EvictOwner(evictedOwners[i], AfterEvicting(st, evictedOwners[..i]));
      }
      assert evictedOwners[..|evictedOwners|] == evictedOwners;
    }

    lemma BlockBuckets()
      ensures TheBlock().buckets == buckets && TheBlock().numSlots == numSlots
    {
    }

    method Pin(b: nat, ghost st: State)
      requires Ready() && b < numBuckets == |buckets| && Represents(Snapshot(), st) && RingInv(st) && b !in st.ring
      modifies `pinned, `pinnedBits, `pinnedIdx
      ensures Ready() && |pinnedBits| == |old(pinnedBits)|
      ensures Represents(Snapshot(), PinnedState(st, b))
    {
      hide *;
      SnapshotIs();
      ghost var f := Snapshot();
      RingFacts(f, st);
      var oldBucket := pinned[pinnedIdx];
      if oldBucket >= 0 {
        pinnedBits := ClearPin(pinnedBits, oldBucket);
      }
      pinned := pinned[pinnedIdx := b];
      pinnedBits := SetPin(pinnedBits, b);
      pinnedIdx := (pinnedIdx + 1) % PINNED_SIZE;
      SnapshotIs();
      assert pilots[..] == f.pilots;
      PinRepresents(f, Snapshot(), st, b);
    }

    // Writes pilot, slots and processed mark of a placement.
    method PlaceAndMark(b: nat, pilot: Byte, slots: seq<nat>, ghost st: State)
      requires Ready() && heap.Valid() && b < numBuckets
      requires Represents(Snapshot(), st)
      requires forall i :: 0 <= i < |slots| ==> slots[i] < numSlots
      modifies `slotGen, `slotOwner, `processedGen, pilots
      ensures Ready() && heap.Valid() && Represents(Snapshot(), PlacedState(st, slots, b, pilot))
    {
      hide *;
      ReadyFacts(b);
      RepresentsFacts(st);
      SnapshotIs();
      ghost var f := Snapshot();
      PlaceBucket(b, pilot, slots, st.owner);
      SetProcessed(b);
      SnapshotIs();
      OwnsIs(Place(st.owner, slots, b));
      PlaceRepresents(f, Snapshot(), st, b, pilot, slots);
    }

    /** True when two entries of the bucket have the same slot input. */
    method HasDuplicateSlotInput(bucket: seq<Entry>) returns (dup: bool)
      ensures dup == !NoDup(InputsOf(bucket))
    {
      hide Entry.Input;
      var inputs := InputsOf(bucket);
      for i := 0 to |bucket|
        invariant forall k, j :: 0 <= k < i && k < j < |bucket| ==> inputs[k] != inputs[j]
      {
        for j := i + 1 to |bucket|
          invariant forall k :: i < k < j ==> inputs[i] != inputs[k]
        {
          if bucket[i].Input() == bucket[j].Input() {
            assert inputs[i] == inputs[j];
            return true;
          }
        }
      }
      return false;
    }

    // Phase 2 once a pilot has been chosen: evict, place, pin.
    method PlaceByEviction(b: nat, pilot: Byte, ghost st: State)
      requires Ready() && heap.Valid() && b < numBuckets && numBuckets == |buckets|
      requires Represents(Snapshot(), Drawn(st)) && Inv(TheBlock(), st) && Open(TheBlock(), st, b)
      requires bestSlots == TheBlock().Slots(b, pilot) && Clear(st, bestSlots)
      modifies `slotGen, `slotOwner, `processedGen, `evictions, `evictedOwners, `pinned, `pinnedBits, `pinnedIdx, heap, pilots
      ensures |pinnedBits| == |old(pinnedBits)|
      ensures Ready() && heap.Valid() && Represents(Snapshot(), Displace(TheBlock(), st, b, pilot))
    {
      ghost var B := TheBlock();
      hide *;
      BlockBuckets();
      SlotsBelow(b, pilot);
      OwnersBelow(st, b);
      RepresentsFacts(Drawn(st));
      CollectOwners(bestSlots, b, Drawn(st));
      DrawnInv(B, st);
      CollectedFacts(B, st, b, pilot, evictedOwners);
      EvictOwners(Drawn(st));
      PlaceAndMark(b, pilot, bestSlots, AfterEvicting(Drawn(st), evictedOwners));
      InvRing(B, st);
      RingKept(B, st, b, pilot, evictedOwners);
      DisplaceInSteps(B, st, b, pilot, evictedOwners);
      Pin(b, PlacedState(AfterEvicting(Drawn(st), evictedOwners), bestSlots, b, pilot));
    }

    lemma SlotsBelow(b: nat, pilot: nat)
      requires Ready() && b < numBuckets
      ensures forall i :: 0 <= i < |TheBlock().Slots(b, pilot)| ==> TheBlock().Slots(b, pilot)[i] < numSlots
    {
      BlockSlotsInRange(TheBlock(), b, pilot);
    }

    lemma OwnersBelow(st: State, b: nat)
      requires Ready() && Inv(TheBlock(), st) && Open(TheBlock(), st, b)
      ensures Drawn(st).owner == st.owner && Drawn(st).pilots == st.pilots
      ensures forall s :: s in st.owner ==> st.owner[s] < 0x1_0000 && st.owner[s] != b
    {
      forall s | s in st.owner ensures st.owner[s] < 0x1_0000 && st.owner[s] != b {
        OwnerClaims(TheBlock(), st, s);
      }
    }

    lemma PinsIs(ring: seq<int>)
      ensures Pins(ring) <==> PinsBy(ring, pinned, pinnedBits, numBuckets)
    {
    }

    lemma SearchableIs(st: State)
      requires numBuckets == |buckets| && Owns(st.owner) && Pins(st.ring)
      requires forall s :: s in st.owner ==> st.owner[s] < numBuckets
      ensures Searchable(st)
    {
    }

    lemma OpenFacts(st: State, b: nat)
      requires Ready() && Open(TheBlock(), st, b)
      ensures b < |buckets| && numBuckets == |buckets| && |buckets[b]| > 0
    {
    }

    // The next start pilot of the attempt's generator.
    method DrawStart(rng: nat -> nat, ghost st: State) returns (p0: nat)
      requires Represents(Snapshot(), st)
      modifies `draws
      ensures p0 == rng(st.draws) % NUM_PILOT_VALUES && Represents(Snapshot(), Drawn(st))
    {
      ghost var f := Snapshot();
      DrawnRepresents(f, st);
      p0 := rng(draws) % NUM_PILOT_VALUES;
      draws := draws + 1;
      assert Snapshot() == f.(draws := f.draws + 1);
      hide AssignsBy, OwnsBy, PinsBy, HoldsBy;
    }

    /** Places one bucket: Phase 1 if some pilot fits, else Phase 2. */
    method ProcessBucket(b: nat, rng: nat -> nat, ghost st: State) returns (err: Option<Error>)
      requires Ready() && heap.Valid() && Represents(Snapshot(), st)
      requires Inv(TheBlock(), st) && Open(TheBlock(), st, b)
      modifies `slotGen, `slotOwner, `processedGen, `phase2SlotGen, `phase2Gen, `evictions, `draws, `pinned, `pinnedBits
      modifies `pinnedIdx, `slotsBuffer, `bestSlots, `evictedOwners, heap, pilots
      ensures Ready() && heap.Valid() && |pinnedBits| == |old(pinnedBits)|
      ensures match Process(TheBlock(), st, b, rng)
              case Ok(next) => err == None && Represents(Snapshot(), next)
              case Err(e) => err == Some(e)
    {
      ghost var B := TheBlock();
      hide *;
      SnapshotIs();
      ghost var f := Snapshot();
      OpenFacts(st, b);
      BlockBuckets();
      SearchableFacts(f, B, st);
      OwnsIs(st.owner);
      var found, pilot, slots := FindFreePilot(b, st.owner);
      OwnsIs(st.owner);
      SnapshotIs();
      SearchRepresents(f, Snapshot(), st);
      if found {
        ProcessFree(B, st, b, rng, pilot, slots);
        SlotsBelow(b, pilot);
        PlaceAndMark(b, pilot, slots, st);
        return None;
      }
      var p0 := DrawStart(rng, st);
      PinsIs(st.ring);
      SearchableIs(st);
      var best := FindBestPilot(b, p0, st);
      ProcessEvicting(B, st, b, rng, pilot, slots, best, bestSlots);
      if |bestSlots| == 0 {
        var dup := HasDuplicateSlotInput(buckets[b]);
        return Some(if dup then DuplicateKey else IndistinguishableHashes);
      }
      PlaceByEviction(b, best.pilot, st);
      return None;
    }

    // Takes the next bucket off the heap: the top of what is pending.
    method PopTop(ghost st: State) returns (b: nat)
      requires heap.Valid() && Represents(Snapshot(), st) && heap.bag != multiset{}
      modifies heap
      ensures heap.Valid() && b in st.pending && Represents(Snapshot(), Popped(st, b))
      ensures (forall c :: c in st.pending ==> c < |TheBlock().buckets|) && b == Top(Sizes(TheBlock()), st.pending)
    {
      hide *;
      SnapshotIs();
      BlockBuckets();
      ghost var f := Snapshot();
      PendingIsBag(f, TheBlock(), st);
      var size;
      b, size := heap.Pop();
      SnapshotIs();
      assert pilots[..] == f.pilots;
      PopIsTop(TheBlock(), f.bag, st.pending, Item(b, size));
      PoppedRepresents(f, Snapshot(), st, Item(b, size));
    }

    /** Drains the heap.  The skip of an already processed bucket never happens:
        what is pending is unprocessed. */
    method DrainHeap(rng: nat -> nat, maxEvictions: nat, ghost st: State) returns (err: Option<Error>)
      requires Ready() && heap.Valid() && Represents(Snapshot(), st) && Inv(TheBlock(), st)
      modifies `slotGen, `slotOwner, `processedGen, `phase2SlotGen, `phase2Gen, `evictions, `draws, `pinned, `pinnedBits
      modifies `pinnedIdx, `slotsBuffer, `bestSlots, `evictedOwners, heap, pilots
      ensures Ready() && heap.Valid() && |pinnedBits| == |old(pinnedBits)|
      ensures match Drain(TheBlock(), st, rng, maxEvictions)
              case Ok(next) => err == None && Represents(Snapshot(), next)
              case Err(e) => err == Some(e)
    {
      ghost var B, now := TheBlock(), st;
      hide *;
      SnapshotIs();
      BlockBuckets();
      PendingIsBag(Snapshot(), B, now);
      LenIsBag();
      while heap.Len() > 0
        invariant |pinnedBits| == |old(pinnedBits)|
        invariant Ready() && heap.Valid() && Represents(Snapshot(), now) && Inv(B, now)
        invariant Drain(B, now, rng, maxEvictions) == Drain(B, st, rng, maxEvictions)
        invariant heap.Len() > 0 <==> heap.bag != multiset{}
        invariant heap.bag == multiset{} <==> now.pending == {}
        decreases Budget(now.evictions, maxEvictions), |now.pending|
      {
        var b := PopTop(now);
        DrainUnfolds(B, now, rng, maxEvictions, b);
        err := ProcessBucket(b, rng, Popped(now, b));
        if err != None {
          return;
        }
        ghost var next := Process(B, Popped(now, b), b, rng).value;
        SnapshotIs();
        PendingIsBag(Snapshot(), B, next);
        LenIsBag();
        if evictions > maxEvictions {
          return Some(EvictionLimitExceeded);
        }
        ShrinksMeasure(now, next, maxEvictions);
        now := next;
      }
      DrainDone(B, now, rng, maxEvictions);
      return None;
    }

    lemma LenIsBag()
      requires heap.Valid()
      ensures heap.Len() > 0 <==> heap.bag != multiset{}
    {
    }

    predicate IsProcessed(b: nat)
      reads `processedGen, `generation
      requires b < |processedGen|
    {
      processedGen[b] == generation
    }

    // One iteration of the main loop.
    method TurnBucket(b: nat, rng: nat -> nat, maxEvictions: nat, ghost st: State) returns (err: Option<Error>)
      requires Ready() && heap.Valid() && Represents(Snapshot(), st) && Inv(TheBlock(), st)
      requires st.pending == {} && b < |buckets| && numBuckets == |buckets|
      modifies `slotGen, `slotOwner, `processedGen, `phase2SlotGen, `phase2Gen, `evictions, `draws, `pinned, `pinnedBits
      modifies `pinnedIdx, `slotsBuffer, `bestSlots, `evictedOwners, heap, pilots
      ensures Ready() && heap.Valid() && |pinnedBits| == |old(pinnedBits)|
      ensures match Turn(TheBlock(), st, b, rng, maxEvictions)
              case Ok(next) => err == None && Represents(Snapshot(), next)
              case Err(e) => err == Some(e)
    {
      ghost var B := TheBlock();
      hide *;
      SnapshotIs();
      BlockBuckets();
      TurnUnfolds(B, st, b, rng, maxEvictions);
      ProcessedIs(Snapshot(), st, b);
      SizeIs(b);
      if |buckets[b]| == 0 {
        PlaceNothing(st, b);
        PlaceAndMark(b, 0, [], st);
        return None;
      }
      ProcessedTest(b);
      if IsProcessed(b) {
        return None;
      }
      err := ProcessBucket(b, rng, st);
      if err != None {
        return;
      }
      ghost var placed := Process(B, st, b, rng).value;
      err := DrainHeap(rng, maxEvictions, placed);
      if err != None {
        return;
      }
      SnapshotIs();
      ProcessedIs(Snapshot(), Drain(B, placed, rng, maxEvictions).value, b);
      if evictions > maxEvictions {
        return Some(EvictionLimitExceeded);
      }
    }

    lemma SizeIs(b: nat)
      requires b < |buckets|
      ensures TheBlock().Size(b) == |buckets[b]|
    {
    }

    lemma ProcessedTest(b: nat)
      requires b < |processedGen|
      ensures IsProcessed(b) == (processedGen[b] == generation)
    {
    }

    method SolveBuckets(rng: nat -> nat, maxEvictions: nat, ghost st: State) returns (err: Option<Error>)
      requires Ready() && heap.Valid() && Represents(Snapshot(), st) && Inv(TheBlock(), st) && st.pending == {}
      requires numBuckets == |buckets| && forall k :: 0 <= k < |bucketOrder| ==> bucketOrder[k] < |buckets|
      modifies `slotGen, `slotOwner, `processedGen, `phase2SlotGen, `phase2Gen, `evictions, `draws, `pinned, `pinnedBits
      modifies `pinnedIdx, `slotsBuffer, `bestSlots, `evictedOwners, heap, pilots
      ensures Ready() && heap.Valid() && |pinnedBits| == |old(pinnedBits)|
      ensures match SolveFrom(TheBlock(), bucketOrder, 0, st, rng, maxEvictions)
              case Ok(next) => err == None && Represents(Snapshot(), next)
              case Err(e) => err == Some(e)
    {
      ghost var B, now := TheBlock(), st;
      hide *;
      BlockBuckets();
      for i := 0 to |bucketOrder|
        invariant |pinnedBits| == |old(pinnedBits)|
        invariant Ready() && heap.Valid() && Represents(Snapshot(), now) && Inv(B, now) && now.pending == {}
        invariant SolveFrom(B, bucketOrder, i, now, rng, maxEvictions) == SolveFrom(B, bucketOrder, 0, st, rng, maxEvictions)
      {
        SolveUnfolds(B, bucketOrder, i, now, rng, maxEvictions);
        err := TurnBucket(bucketOrder[i], rng, maxEvictions, now);
        if err != None {
          return;
        }
        now := Turn(B, now, bucketOrder[i], rng, maxEvictions).value;
      }
      SolveFinishes(B, bucketOrder, now, rng, maxEvictions);
      return None;
    }

    // The first hole at or after `cursor`; the panic for running out is never reached.
    method ScanHole(cursor: nat, ghost taken: set<nat>) returns (hole: nat)
      requires numKeys <= numSlots <= |slotGen| && Tagged(taken)
      requires HolesFrom(taken, cursor, numKeys) > 0
      ensures hole == NextHole(taken, cursor, numKeys) < numKeys
    {
      NextHoleFound(taken, cursor, numKeys);
      hide HolesFrom;
      hole := cursor;
      while slotGen[hole] == generation
        invariant hole <= NextHole(taken, cursor, numKeys) == NextHole(taken, hole, numKeys) < numKeys
        decreases numKeys - hole
      {
        hole := hole + 1;
        if hole >= numKeys {
          assert false;
        }
      }
    }

    // The tags mark exactly the slots of `taken`.
    ghost predicate Tagged(taken: set<nat>)
      reads `slotGen, `generation, `numSlots
    {
      numSlots <= |slotGen| && forall s: nat :: s < numSlots ==> (s in taken <==> slotGen[s] == generation)
    }

    /** The remap table by one pass over the overflow slots. */
    method BuildRemap(ghost taken: set<nat>) returns (remap: seq<nat>)
      requires 0 < numKeys <= numSlots < 0x1_0000 && Tagged(taken)
      requires |taken| == numKeys && forall s :: s in taken ==> s < numSlots
      ensures remap == Table(taken, numKeys, numSlots, numKeys, 0)
    {
      hide *;
      remap := [];
      var holeCursor := 0;
      TableStarts(taken, numKeys, numSlots);
      for overflowSlot := numKeys to numSlots
        invariant TableSoFar(taken, numKeys, numSlots, overflowSlot, holeCursor, remap)
      {
        TableSteps(taken, numKeys, numSlots, overflowSlot, holeCursor, remap);
        TaggedAt(taken, overflowSlot);
        if slotGen[overflowSlot] != generation {
          remap := remap + [0];
          continue;
        }
        holeCursor := ScanHole(holeCursor, taken);
        remap := remap + [holeCursor % 0x1_0000];
        holeCursor := holeCursor + 1;
      }
      TableEnds(taken, numKeys, numSlots, holeCursor, remap);
    }

    lemma TaggedAt(taken: set<nat>, s: nat)
      requires Tagged(taken) && s < numSlots
      ensures numSlots <= |slotGen| && (s in taken <==> slotGen[s] == generation)
    {
    }
 

    // ---------- One block ----------

    // Between blocks.
    ghost predicate Idle()
      reads this, heap
    {
      && Tags() && heap.Valid()
      && |slotGen| == |slotOwner|
      && |processedGen| <= 64 * |pinnedBits|
    }

    // A block has been loaded and nothing is placed yet.
    ghost predicate Fresh()
      reads this, pilots, heap
    {
      && Idle() && Ready()
      && IsOrder(Sizes(TheBlock()), bucketOrder)
      && Represents(Snapshot().(bag := multiset{}, draws := 0), INITIAL)
    }

    static method StartsOf(buckets: seq<seq<Entry>>) returns (starts: seq<nat>, maxBucketSize: nat)
      ensures IsStarts(buckets, starts, |buckets| + 1)
      ensures forall b :: 0 <= b < |buckets| ==> |buckets[b]| <= maxBucketSize
    {
      starts := [];
      maxBucketSize := 0;
      var totalKeys := 0;
      assert IsStarts(buckets, starts, 0) && SumSizes(buckets, 0) == 0;
      hide IsStarts, SumSizes;
      for i := 0 to |buckets|
        invariant IsStarts(buckets, starts, i) && totalKeys == SumSizes(buckets, i)
        invariant forall b :: 0 <= b < i ==> |buckets[b]| <= maxBucketSize
      {
        StartsStep(buckets, starts, i);
        starts := starts + [totalKeys % 0x1_0000];
        totalKeys := totalKeys + |buckets[i]|;
        if |buckets[i]| > maxBucketSize {
          maxBucketSize := |buckets[i]|;
        }
      }
      StartsStep(buckets, starts, |buckets|);
      starts := starts + [totalKeys % 0x1_0000];
    }

    // Buckets by size; scratch buffers may hold anything beforehand.
    static method OrderBuckets(buckets: seq<seq<Entry>>, ghost hash: SlotHash, ghost slots: nat)
      returns (order: seq<nat>, maxBucketSize: nat)
      requires |buckets| <= 0x8000
      ensures forall b :: 0 <= b < |buckets| ==> |buckets[b]| <= maxBucketSize
      ensures (forall b :: 0 <= b < |buckets| ==> |buckets[b]| < 0x1_0000) ==>
                IsOrder(Sizes(Block(hash, buckets, slots)), order)
    {
      hide *;
      var starts;
      starts, maxBucketSize := StartsOf(buckets);
      CountsFit(buckets, starts, maxBucketSize);
      var result := new nat[|buckets|];
      var counts := new nat[maxBucketSize + 1];
      var positions := new nat[maxBucketSize + 1];
      CountingSortBucketsInto(starts, result, counts, positions);
      order := result[..|buckets|];
      if forall b :: 0 <= b < |buckets| ==> |buckets[b]| < 0x1_0000 {
        OrderFromStarts(buckets, starts, order, hash, slots);
      }
    }

    // The next generation; before the tags run out everything is cleared.
    method NextGeneration()
      requires Tags()
      modifies `generation, `slotGen, `processedGen
      ensures Tags() && |slotGen| == |old(slotGen)| && |processedGen| == |old(processedGen)|
      ensures forall s :: 0 <= s < |slotGen| ==> slotGen[s] != generation
      ensures forall b :: 0 <= b < |processedGen| ==> processedGen[b] != generation
    {
      generation := generation + 1;
      if generation >= 254 {
        generation := 1;
        slotGen := seq(|slotGen|, _ => 0);
        processedGen := seq(|processedGen|, _ => 0);
      }
    }

    // Grows the buffers the block outgrew; grown buffers start cleared.
    method Grow(slots: nat, maxBucketSize: nat)
      requires Tags() && |slotGen| == |slotOwner|
      modifies `slotGen, `slotOwner, `phase2SlotGen, `slotsBuffer
      ensures Tags() && |slotGen| == |slotOwner| && slots <= |slotGen| && slots <= |phase2SlotGen|
      ensures maxBucketSize <= |slotsBuffer|
    {
      if slots > |slotGen| {
        slotOwner, slotGen := seq(slots, _ => 0), seq(slots, _ => 0);
      }
      if maxBucketSize > |slotsBuffer| {
        slotsBuffer := seq(maxBucketSize, _ => 0);
      }
      if slots > |phase2SlotGen| {
        phase2SlotGen := seq(slots, _ => 0);
      }
    }

    /** Prepares for a block without clearing the big arrays: the next generation
        makes every old mark stale. */
    method Reset(newBuckets: seq<seq<Entry>>, keys: nat, slots: nat, dst: array<Byte>)
      requires Idle()
      requires |newBuckets| == |processedGen| <= 0x8000 && |newBuckets| <= dst.Length
      requires 0 < keys <= slots && forall b :: 0 <= b < |newBuckets| ==> |newBuckets[b]| <= keys
      requires forall x, p :: hash(x, p, slots) < slots
      modifies this
      ensures Idle() && |processedGen| == |old(processedGen)|
      ensures buckets == newBuckets && numBuckets == |newBuckets| && numKeys == keys && numSlots == slots && pilots == dst
      ensures slots < 0x1_0000 ==> Fresh()
    {
      hide *;
      IdleFacts();
      var maxBucketSize := Load(newBuckets, keys, slots, dst);
      Grow(slots, maxBucketSize);
      NextGeneration();
      ClearPins();
      BecomesIdle();
      if slots < 0x1_0000 {
        BecomesFresh();
      }
    }

    lemma IdleFacts()
      requires Idle()
      ensures Tags() && heap.Valid() && |slotGen| == |slotOwner| && |processedGen| <= 64 * |pinnedBits|
    {
    }

    lemma BecomesIdle()
      requires Tags() && heap.Valid() && |slotGen| == |slotOwner| && |processedGen| <= 64 * |pinnedBits|
      ensures Idle()
    {
    }

    lemma BecomesFresh()
      requires Idle() && 0 < numSlots < 0x1_0000 && |buckets| == numBuckets == |processedGen| <= 0x8000
      requires numSlots <= |slotGen| && numSlots <= |phase2SlotGen| && numBuckets <= pilots.Length
      requires forall b :: 0 <= b < numBuckets ==> |buckets[b]| <= |slotsBuffer| && |buckets[b]| <= numSlots
      requires forall x, p :: hash(x, p, numSlots) < numSlots
      requires IsOrder(Sizes(Block(hash, buckets, numSlots)), bucketOrder)
      requires forall s :: 0 <= s < |slotGen| ==> slotGen[s] != generation
      requires forall b :: 0 <= b < |processedGen| ==> processedGen[b] != generation
      requires forall w :: 0 <= 64 * w < numBuckets ==> pinnedBits[w] == ZERO
      requires pinned == EMPTY_RING && pinnedIdx == 0 && evictions == 0
      ensures Fresh()
    {
      hide Represents, IsOrder, Sizes;
      ResetRepresents(Snapshot().(bag := multiset{}, draws := 0));
    }

    // Takes over the block's keys and geometry, and orders its buckets.
    method Load(newBuckets: seq<seq<Entry>>, keys: nat, slots: nat, dst: array<Byte>) returns (maxBucketSize: nat)
      requires |newBuckets| <= 0x8000
      requires forall b :: 0 <= b < |newBuckets| ==> |newBuckets[b]| <= keys <= slots
      modifies `numBuckets, `numSlots, `numKeys, `evictions, `buckets, `pilots, `bucketOrder
      ensures numBuckets == |newBuckets| && numSlots == slots && numKeys == keys && evictions == 0
      ensures buckets == newBuckets && pilots == dst
      ensures forall b :: 0 <= b < |newBuckets| ==> |newBuckets[b]| <= maxBucketSize
      ensures slots < 0x1_0000 ==> IsOrder(Sizes(Block(hash, newBuckets, slots)), bucketOrder)
    {
      hide *;
      numBuckets, numSlots, numKeys := |newBuckets|, slots, keys;
      evictions := 0;
      buckets, pilots := newBuckets, dst;
      bucketOrder, maxBucketSize := OrderBuckets(newBuckets, hash, slots);
    }

    // Empties the ring and the bits of the block's buckets.
    method ClearPins()
      requires numBuckets <= 64 * |pinnedBits|
      modifies `pinned, `pinnedIdx, `pinnedBits
      ensures pinned == EMPTY_RING && pinnedIdx == 0 && |pinnedBits| == |old(pinnedBits)|
      ensures forall w :: 0 <= 64 * w < numBuckets ==> pinnedBits[w] == ZERO
    {
      pinned, pinnedIdx := EMPTY_RING, 0;
      var words := (numBuckets + 63) / 64;
      pinnedBits := seq(words, _ => ZERO) + pinnedBits[words..];
    }

    // A new attempt starts with an empty heap and a fresh generator.
    method StartAttempt()
      requires Fresh()
      modifies `draws, `bestSlots, `evictedOwners, heap
      ensures Ready() && heap.Valid() && Represents(Snapshot(), INITIAL)
    {
      hide *;
      FreshIs();
      SnapshotIs();
      ghost var f := Snapshot();
      heap.Clear();
      draws := 0;
      bestSlots, evictedOwners := [], [];
      SnapshotIs();
      assert pilots[..] == f.pilots;
      RepresentsEmptied(f, Snapshot());
    }

    lemma FreshIs()
      requires Fresh()
      ensures Ready() && heap.Valid() && IsOrder(Sizes(TheBlock()), bucketOrder)
      ensures Represents(Snapshot().(bag := multiset{}, draws := 0), INITIAL)
      ensures numBuckets == |buckets| && 0 < numSlots < 0x1_0000 && TheBlock().InRange()
      ensures |processedGen| <= 64 * |pinnedBits| && numBuckets == |processedGen|
    {
    }

    lemma IdleIs()
      requires Ready() && heap.Valid() && numBuckets <= 64 * |pinnedBits|
      ensures Idle() && numBuckets == |processedGen|
    {
    }

    /** Gives every bucket a pilot and returns the remap table, or fails as the
        specification does. */
    method Solve(attempt: nat, rngOf: nat -> nat -> nat) returns (r: Result<seq<nat>, Error>)
      requires Idle() && numKeys <= numSlots && |processedGen| == numBuckets
      requires numKeys > 0 && numSlots < 0x1_0000 ==> Fresh() && SumSizes(buckets, |buckets|) == numKeys
      modifies `slotGen, `slotOwner, `processedGen, `phase2SlotGen, `phase2Gen, `evictions, `draws, `pinned, `pinnedBits
      modifies `pinnedIdx, `slotsBuffer, `bestSlots, `evictedOwners, heap, pilots
      ensures Idle() && |processedGen| == numBuckets
      ensures numKeys == 0 ==> r == Ok([]) && pilots[..] == old(pilots[..])
      ensures numKeys > 0 && numSlots >= 0x1_0000 ==> r == Err(BlockOverflow)
      ensures numKeys > 0 && numSlots < 0x1_0000 ==>
                IsOrder(Sizes(TheBlock()), bucketOrder) && Delivers(PtrSolve.Solve(TheBlock(), bucketOrder, rngOf(attempt)), r)
    {
      if numKeys == 0 {
        return Ok([]);
      }
      if numSlots > MAX_UINT16 {
        return Err(BlockOverflow);
      }
      r := SolveBlock(rngOf(attempt));
    }

    // The outcome is the specified one: same error, or same pilots and the remap
    // table of what is taken.
    ghost predicate Delivers(wanted: Result<State, Error>, r: Result<seq<nat>, Error>)
      reads `pilots, pilots, `buckets, `numKeys, `numSlots
    {
      match wanted
      case Err(e) => r == Err(e)
      case Ok(st) =>
        && r == Ok(Table(st.owner.Keys, numKeys, numSlots, numKeys, 0))
        && |buckets| <= pilots.Length
        && forall b :: 0 <= b < |buckets| ==> b in st.pilots && pilots[b] == st.pilots[b]
    }

    method SolveBlock(rng: nat -> nat) returns (r: Result<seq<nat>, Error>)
      requires Fresh() && 0 < numKeys <= numSlots && SumSizes(buckets, |buckets|) == numKeys
      modifies `slotGen, `slotOwner, `processedGen, `phase2SlotGen, `phase2Gen, `evictions, `draws, `pinned, `pinnedBits
      modifies `pinnedIdx, `slotsBuffer, `bestSlots, `evictedOwners, heap, pilots
      ensures Idle() && |processedGen| == numBuckets
      ensures IsOrder(Sizes(TheBlock()), bucketOrder)
      ensures Delivers(PtrSolve.Solve(TheBlock(), bucketOrder, rng), r)
    {
      ghost var B := TheBlock();
      hide *;
      FreshIs();
      BlockBuckets();
      SolveIs(B, bucketOrder, rng);
      StartAttempt();
      var err := SolveBuckets(rng, MaxEvictions(numSlots), INITIAL);
      IdleIs();
      DeliversIs();
      if err.Some? {
        return Err(err.value);
      }
      SnapshotIs();
      SolvedTaken(B, bucketOrder, rng, Snapshot());
      ghost var st := PtrSolve.Solve(B, bucketOrder, rng).value;
      TaggedIs(st.owner.Keys);
      var remap := BuildRemap(st.owner.Keys);
      r := Ok(remap);
    }

    lemma DeliversIs()
      ensures forall wanted: Result<State, Error>, r :: wanted.Err? && r == Err(wanted.error) ==> Delivers(wanted, r)
      ensures forall wanted: Result<State, Error>, r ::
                wanted.Ok? && r == Ok(Table(wanted.value.owner.Keys, numKeys, numSlots, numKeys, 0))
                && |buckets| <= pilots.Length
                && (forall b :: 0 <= b < |buckets| ==> b in wanted.value.pilots && pilots[b] == wanted.value.pilots[b]) ==>
                Delivers(wanted, r)
    {
    }

    lemma TaggedIs(taken: set<nat>)
      requires numSlots <= |slotGen| && forall s: nat :: s < numSlots ==> (s in taken <==> slotGen[s] == generation)
      ensures Tagged(taken)
    {
    }
  }
}
