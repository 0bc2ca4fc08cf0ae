/** What the PTRHash solver's fields stand for, as predicates on their values:
    generation tags for the owner map and the processed buckets, the pin
    bitvector for the ring, the heap's bag for the pending buckets. */
module PtrFields {
  import opened Basics
  import opened Words
  import opened PtrSpec
  import opened PtrInvariant
  import opened PtrSolve
  import opened PtrRemap
  import opened PtrBlock
  import opened CountingSort
  import opened BucketHeap

  // ---------- The pin bitvector ----------

  function PinBit(bits: seq<Word>, b: nat): bool
    requires b < 64 * |bits|
  {
    bits[b / 64][b % 64]
  }

  function SetPin(bits: seq<Word>, b: nat): (r: seq<Word>)
    requires b < 64 * |bits|
    ensures |r| == |bits|
    ensures forall c :: 0 <= c < 64 * |bits| ==> PinBit(r, c) == (c == b || PinBit(bits, c))
  {
    bits[b / 64 := Or(bits[b / 64], Bit(b % 64))]
  }

  function ClearPin(bits: seq<Word>, b: nat): (r: seq<Word>)
    requires b < 64 * |bits|
    ensures |r| == |bits|
    ensures forall c :: 0 <= c < 64 * |bits| ==> PinBit(r, c) == (c != b && PinBit(bits, c))
  {
    bits[b / 64 := And(bits[b / 64], Not(Bit(b % 64)))]
  }

  lemma PinTest(bits: seq<Word>, b: nat)
    requires b < 64 * |bits|
    ensures (And(bits[b / 64], Bit(b % 64)) != ZERO) == PinBit(bits, b)
  {
    var w := And(bits[b / 64], Bit(b % 64));
    assert w[b % 64] == PinBit(bits, b);
    if !PinBit(bits, b) {
      assert w == ZERO;
    }
  }

  lemma FreePilotStep(B: Block, owner: map<nat, nat>, b: nat, p: nat)
    requires b < |B.buckets|
    ensures p < NUM_PILOT_VALUES && Fits(owner, B.Slots(b, p)) ==> FreePilot(B, owner, b, p) == Some(p)
    ensures p < NUM_PILOT_VALUES && !Fits(owner, B.Slots(b, p)) ==>
              FreePilot(B, owner, b, p) == FreePilot(B, owner, b, p + 1)
    ensures p == NUM_PILOT_VALUES ==> FreePilot(B, owner, b, p) == None
  {
  }

  // The tag array marks exactly the owned slots.
  ghost predicate Marks(owner: map<nat, nat>, slotGen: seq<nat>, generation: nat, numSlots: nat) {
    numSlots <= |slotGen| && forall s: nat :: s < numSlots ==> (s in owner <==> slotGen[s] == generation)
  }

  lemma FitsByMarks(B: Block, owner: map<nat, nat>, slotGen: seq<nat>, generation: nat, slots: seq<nat>)
    requires Marks(owner, slotGen, generation, B.numSlots)
    requires forall i :: 0 <= i < |slots| ==> slots[i] < B.numSlots
    ensures Fits(owner, slots) <==>
            NoDup(slots) && forall i :: 0 <= i < |slots| ==> slotGen[slots[i]] != generation
  {
    assert forall i :: 0 <= i < |slots| ==> slots[i] in slots;
  }

  lemma PairFitsByMarks(B: Block, owner: map<nat, nat>, slotGen: seq<nat>, generation: nat, slots: seq<nat>)
    requires Marks(owner, slotGen, generation, B.numSlots)
    requires |slots| == 2 && slots[0] < B.numSlots && slots[1] < B.numSlots
    ensures Fits(owner, slots) <==>
            slots[0] != slots[1] && slotGen[slots[0]] != generation && slotGen[slots[1]] != generation
  {
    FitsByMarks(B, owner, slotGen, generation, slots);
  }

  // The same slots carry the current generation.
  ghost predicate SameMarks(before: seq<nat>, after: seq<nat>, generation: nat) {
    |before| == |after| && forall s :: 0 <= s < |after| ==> ((after[s] == generation) == (before[s] == generation))
  }

  lemma MarksKept(owner: map<nat, nat>, before: seq<nat>, after: seq<nat>, generation: nat, numSlots: nat)
    requires Marks(owner, before, generation, numSlots) && SameMarks(before, after, generation)
    ensures Marks(owner, after, generation, numSlots)
  {
  }

  // What a search that found `pilot` or nothing has to report.
  ghost predicate FindsFree(B: Block, owner: map<nat, nat>, b: nat, found: bool, pilot: nat, slots: seq<nat>)
    requires b < |B.buckets|
  {
    && FreePilot(B, owner, b, 0) == (if found then Some(pilot) else None)
    && (found ==> slots == B.Slots(b, pilot))
  }

  lemma BlockSlotsInRange(B: Block, b: nat, pilot: nat)
    requires B.InRange() && b < |B.buckets|
    ensures forall i :: 0 <= i < B.Size(b) ==>
      B.Slots(b, pilot)[i] == B.hash(B.buckets[b][i].Input(), pilot, B.numSlots) < B.numSlots
  {
  }

  // For buckets of one key.
  method FindFreePilot1(B: Block, b: nat, slotGen: seq<nat>, generation: nat, ghost owner: map<nat, nat>)
    returns (found: bool, pilot: nat, slots: seq<nat>)
    requires B.InRange() && B.numSlots <= MAX_UINT16 && b < |B.buckets| && B.Size(b) == 1
    requires Marks(owner, slotGen, generation, B.numSlots)
    ensures FindsFree(B, owner, b, found, pilot, slots)
  {
    assert B.numSlots <= |slotGen|;
    hide FreePilot, Fits, Marks;
    var e0 := B.buckets[b][0];
    pilot := 0;
    while pilot < NUM_PILOT_VALUES
      invariant 0 <= pilot <= NUM_PILOT_VALUES
      invariant FreePilot(B, owner, b, pilot) == FreePilot(B, owner, b, 0)
    {
      BlockSlotsInRange(B, b, pilot);
      FreePilotStep(B, owner, b, pilot);
      FitsByMarks(B, owner, slotGen, generation, B.Slots(b, pilot));
      var slot := B.hash(e0.Input(), pilot, B.numSlots);
      assert B.Slots(b, pilot) == [slot];
      if slotGen[slot] != generation {
        return true, pilot, [slot % 0x1_0000];
      }
      pilot := pilot + 1;
    }
    FreePilotStep(B, owner, b, pilot);
    return false, 0, [];
  }

  // One pilot for a bucket of two keys: the second slot is computed only if the
  // first is free.
  method TryPilot2(B: Block, b: nat, pilot: nat, slotGen: seq<nat>, generation: nat, ghost owner: map<nat, nat>)
    returns (fits: bool, slots: seq<nat>)
    requires B.InRange() && B.numSlots <= MAX_UINT16 && b < |B.buckets| && B.Size(b) == 2
    requires Marks(owner, slotGen, generation, B.numSlots)
    ensures fits == Fits(owner, B.Slots(b, pilot))
    ensures fits ==> slots == B.Slots(b, pilot)
  {
    BlockSlotsInRange(B, b, pilot);
    PairFitsByMarks(B, owner, slotGen, generation, B.Slots(b, pilot));
    assert B.numSlots <= |slotGen|;
    hide Fits, Marks, SlotsOf, Entry.Input;
    var e0, e1 := B.buckets[b][0], B.buckets[b][1];
    var slot0 := B.hash(e0.Input(), pilot, B.numSlots);
    if slotGen[slot0] == generation {
      return false, [];
    }
    var slot1 := B.hash(e1.Input(), pilot, B.numSlots);
    if slot0 == slot1 {
      return false, [];
    }
    if slotGen[slot1] == generation {
      return false, [];
    }
    slots := [slot0 % 0x1_0000, slot1 % 0x1_0000];
    assert slots == B.Slots(b, pilot);
    return true, slots;
  }

  // For buckets of two keys.
  method FindFreePilot2(B: Block, b: nat, slotGen: seq<nat>, generation: nat, ghost owner: map<nat, nat>)
    returns (found: bool, pilot: nat, slots: seq<nat>)
    requires B.InRange() && B.numSlots <= MAX_UINT16 && b < |B.buckets| && B.Size(b) == 2
    requires Marks(owner, slotGen, generation, B.numSlots)
    ensures FindsFree(B, owner, b, found, pilot, slots)
  {
    hide FreePilot, Fits, Marks;
    pilot := 0;
    while pilot < NUM_PILOT_VALUES
      invariant 0 <= pilot <= NUM_PILOT_VALUES
      invariant FreePilot(B, owner, b, pilot) == FreePilot(B, owner, b, 0)
    {
      FreePilotStep(B, owner, b, pilot);
      found, slots := TryPilot2(B, b, pilot, slotGen, generation, owner);
      if found {
        return;
      }
      pilot := pilot + 1;
    }
    FreePilotStep(B, owner, b, pilot);
    return false, 0, [];
  }

  lemma ScoreStep(B: Block, st: State, slots: seq<nat>, i: nat)
    requires i < |slots|
    ensures Score(B, st.owner, slots[..i + 1]) == Score(B, st.owner, slots[..i]) + Weight(B, st.owner, slots[i])
    ensures HitsPinned(st, slots[..i + 1]) <==>
            HitsPinned(st, slots[..i]) || (slots[i] in st.owner && st.owner[slots[i]] in st.ring)
  {
    assert slots[..i + 1] == slots[..i] + [slots[i]];
    assert slots[..i + 1][..i] == slots[..i];
  }

  lemma {:induction false} ScoreGrows(B: Block, owner: map<nat, nat>, slots: seq<nat>, i: nat)
    requires i <= |slots|
    ensures Score(B, owner, slots[..i]) <= Score(B, owner, slots)
    decreases |slots|
  {
    if i == |slots| {
      assert slots[..i] == slots;
    } else {
      ScoreGrows(B, owner, slots[..|slots| - 1], i);
      assert slots[..|slots| - 1][..i] == slots[..i];
    }
  }

  // The slots kept beside the best pilot so far; none kept means none found.
  ghost predicate HoldsBest(B: Block, b: nat, best: Best, slots: seq<nat>)
    requires b < |B.buckets|
  {
    (best.found <==> |slots| > 0) && (best.found ==> slots == B.Slots(b, best.pilot))
  }

  lemma BestHeld(B: Block, b: nat, pilot: nat, score: nat)
    requires b < |B.buckets| && B.Size(b) > 0
    ensures HoldsBest(B, b, Best(true, pilot, score), B.Slots(b, pilot))
  {
  }

  lemma BestPilotStarts(B: Block, st: State, b: nat, start: nat)
    requires b < |B.buckets|
    ensures Scan(B, st, b, start, 0, Best(false, 0, MAX_INT)) == BestPilot(B, st, b, start)
  {
  }

  lemma ScanSkips(B: Block, st: State, b: nat, start: nat, delta: nat, best: Best)
    requires b < |B.buckets| && delta < NUM_PILOT_VALUES
    requires !Improves(B, st, B.Slots(b, (start + delta) % NUM_PILOT_VALUES), best)
    ensures Scan(B, st, b, start, delta, best) == Scan(B, st, b, start, delta + 1, best)
  {
  }

  lemma ScanTakes(B: Block, st: State, b: nat, start: nat, delta: nat, best: Best, score: nat)
    requires b < |B.buckets| && delta < NUM_PILOT_VALUES
    requires var pilot := (start + delta) % NUM_PILOT_VALUES;
             Improves(B, st, B.Slots(b, pilot), best) && score == Score(B, st.owner, B.Slots(b, pilot))
    ensures var next := Best(true, (start + delta) % NUM_PILOT_VALUES, score);
            Scan(B, st, b, start, delta, best) ==
            if score <= B.Size(b) * B.Size(b) then next else Scan(B, st, b, start, delta + 1, next)
  {
  }

  lemma ScanEnds(B: Block, st: State, b: nat, start: nat, best: Best)
    requires b < |B.buckets|
    ensures Scan(B, st, b, start, NUM_PILOT_VALUES, best) == best
  {
  }

  // `after` is `before` with the slots of `done` freed where bucket b still owns them.
  ghost predicate Freed(before: seq<nat>, after: seq<nat>, slotOwner: seq<nat>, done: seq<nat>, b: nat, generation: nat) {
    && |after| == |before| <= |slotOwner|
    && forall s :: 0 <= s < |after| ==>
      after[s] == if s in done && before[s] == generation && slotOwner[s] == b then 0 else before[s]
  }

  lemma FreeNext(before: seq<nat>, after: seq<nat>, slotOwner: seq<nat>, slots: seq<nat>, i: nat, b: nat, generation: nat)
    requires i < |slots| && slots[i] < |before| && generation > 0
    requires Freed(before, after, slotOwner, slots[..i], b, generation)
    ensures |after| == |before| <= |slotOwner|
    ensures after[slots[i]] == generation && slotOwner[slots[i]] == b ==>
              Freed(before, after[slots[i] := 0], slotOwner, slots[..i + 1], b, generation)
    ensures !(after[slots[i]] == generation && slotOwner[slots[i]] == b) ==>
              Freed(before, after, slotOwner, slots[..i + 1], b, generation)
  {
    assert slots[..i + 1] == slots[..i] + [slots[i]];
  }

  ghost predicate OwnsBy(owner: map<nat, nat>, slotGen: seq<nat>, slotOwner: seq<nat>, generation: nat, numSlots: nat) {
    && Marks(owner, slotGen, generation, numSlots)
    && numSlots <= |slotOwner|
    && forall s :: s in owner ==> s < numSlots && slotOwner[s] == owner[s]
  }

  method FreeOwned(slotGen: seq<nat>, slotOwner: seq<nat>, slots: seq<nat>, b: nat, generation: nat)
    returns (freed: seq<nat>)
    requires generation > 0 && b < 0x1_0000 && |slotGen| <= |slotOwner|
    requires forall i :: 0 <= i < |slots| ==> slots[i] < |slotGen|
    ensures Freed(slotGen, freed, slotOwner, slots, b, generation)
  {
    freed := slotGen;
    for i := 0 to |slots|
      invariant Freed(slotGen, freed, slotOwner, slots[..i], b, generation)
    {
      FreeNext(slotGen, freed, slotOwner, slots, i, b, generation);
      if freed[slots[i]] == generation && slotOwner[slots[i]] == b % 0x1_0000 {
        freed := freed[slots[i] := 0];
      }
    }
    assert slots[..|slots|] == slots;
  }

  // Freeing every slot bucket b may own leaves the other owners.
  lemma FreedOwns(owner: map<nat, nat>, before: seq<nat>, after: seq<nat>, slotOwner: seq<nat>, slots: seq<nat>,
                  b: nat, generation: nat, numSlots: nat)
    requires OwnsBy(owner, before, slotOwner, generation, numSlots) && generation > 0
    requires Freed(before, after, slotOwner, slots, b, generation)
    requires forall s :: s in owner && owner[s] == b ==> s in slots
    ensures OwnsBy(Unowned(owner, {b}), after, slotOwner, generation, numSlots)
  {
  }

  // Writes the tags and owners of a placement.
  method MarkOwned(slotGen: seq<nat>, slotOwner: seq<nat>, slots: seq<nat>, b: nat, generation: nat,
                   ghost owner: map<nat, nat>, numSlots: nat)
    returns (gen': seq<nat>, owner': seq<nat>)
    requires b < 0x1_0000 && |slotGen| == |slotOwner|
    requires OwnsBy(owner, slotGen, slotOwner, generation, numSlots)
    requires forall i :: 0 <= i < |slots| ==> slots[i] < numSlots
    ensures |gen'| == |slotGen| && |owner'| == |slotOwner|
    ensures OwnsBy(Place(owner, slots, b), gen', owner', generation, numSlots)
    ensures forall s :: 0 <= s < |gen'| ==> gen'[s] == slotGen[s] || gen'[s] == generation
  {
    gen', owner' := slotGen, slotOwner;
    for i := 0 to |slots|
      invariant |gen'| == |slotGen| && |owner'| == |slotOwner|
      invariant forall s :: 0 <= s < |gen'| ==> gen'[s] == if s in slots[..i] then generation else slotGen[s]
      invariant forall s :: 0 <= s < |owner'| ==> owner'[s] == if s in slots[..i] then b else slotOwner[s]
    {
      owner' := owner'[slots[i] := b % 0x1_0000];
      gen' := gen'[slots[i] := generation];
    }
    assert slots[..|slots|] == slots;
  }

  // The tagged bucket array marks the processed buckets and `pilots` holds their pilots.
  ghost predicate AssignsBy(chosen: map<nat, nat>, processedGen: seq<nat>, generation: nat, pilots: seq<Byte>, n: nat) {
    && n <= |processedGen| && n <= |pilots|
    && (forall b :: b in chosen ==> b < n && pilots[b] == chosen[b])
    && (forall b: nat :: b < n ==> (b in chosen <==> processedGen[b] == generation))
  }

  lemma AssignsEvict(chosen: map<nat, nat>, processedGen: seq<nat>, generation: nat, pilots: seq<Byte>, n: nat, o: nat)
    requires AssignsBy(chosen, processedGen, generation, pilots, n) && o < n && generation > 0
    ensures AssignsBy(chosen - {o}, processedGen[o := 0], generation, pilots, n)
  {
  }

  lemma AssignsPlace(chosen: map<nat, nat>, processedGen: seq<nat>, generation: nat, pilots: seq<Byte>, n: nat, b: nat, p: Byte)
    requires AssignsBy(chosen, processedGen, generation, pilots, n) && b < n
    ensures AssignsBy(chosen[b := p], processedGen[b := generation], generation, pilots[b := p], n)
  {
  }

  // The ring and its bitvector agree.
  ghost predicate PinsBy(ring: seq<int>, pinned: seq<int>, pinnedBits: seq<Word>, n: nat) {
    && pinned == ring && |ring| == PINNED_SIZE
    && n <= 64 * |pinnedBits|
    && (forall i :: 0 <= i < PINNED_SIZE ==> ring[i] < n)
    && forall b: nat :: b < n ==> (PinBit(pinnedBits, b) <==> b in ring)
  }

  // The heap holds each pending bucket once, with its size.
  ghost predicate HoldsBy(buckets: seq<seq<Entry>>, bag: multiset<Item>, waiting: set<nat>) {
    && (forall b :: b in waiting ==> b < |buckets| && bag[Item(b, |buckets[b]|)] == 1)
    && (forall x :: x in bag ==> x.idx in waiting && x.idx < |buckets| && x.size == |buckets[x.idx]|)
  }

  lemma HoldsPush(buckets: seq<seq<Entry>>, before: multiset<Item>, after: multiset<Item>, waiting: set<nat>, o: nat)
    requires HoldsBy(buckets, before, waiting) && o < |buckets| && o !in waiting
    requires after == before + multiset{Item(o, |buckets[o]|)}
    ensures HoldsBy(buckets, after, waiting + {o})
  {
  }

  lemma HoldsPop(buckets: seq<seq<Entry>>, before: multiset<Item>, after: multiset<Item>, waiting: set<nat>, x: Item)
    requires HoldsBy(buckets, before, waiting) && before == after + multiset{x}
    ensures x.idx in waiting && x.idx < |buckets| && x.size == |buckets[x.idx]|
    ensures HoldsBy(buckets, after, waiting - {x.idx})
  {
  }

  // The fields that make up the solver's state, as values.
  datatype Fields = Fields(
    buckets: seq<seq<Entry>>,
    numSlots: nat,
    generation: nat,
    pilots: seq<Byte>,
    processedGen: seq<nat>,
    slotGen: seq<nat>,
    slotOwner: seq<nat>,
    pinned: seq<int>,
    pinnedBits: seq<Word>,
    pinnedIdx: nat,
    evictions: nat,
    draws: nat,
    bag: multiset<Item>
  )

  // The fields stand for the abstract state.
  ghost predicate Represents(f: Fields, st: State) {
    && AssignsBy(st.pilots, f.processedGen, f.generation, f.pilots, |f.buckets|)
    && OwnsBy(st.owner, f.slotGen, f.slotOwner, f.generation, f.numSlots)
    && PinsBy(st.ring, f.pinned, f.pinnedBits, |f.buckets|)
    && f.pinnedIdx == st.ringIdx && f.evictions == st.evictions && f.draws == st.draws
    && HoldsBy(f.buckets, f.bag, st.pending)
  }

  // Placing bucket b with pilot p, b not processed before.
  lemma PlaceRepresents(f: Fields, f': Fields, st: State, b: nat, p: Byte, slots: seq<nat>)
    requires Represents(f, st) && b < |f.buckets|
    requires f' == f.(pilots := f.pilots[b := p], processedGen := f.processedGen[b := f.generation],
                      slotGen := f'.slotGen, slotOwner := f'.slotOwner)
    requires OwnsBy(Place(st.owner, slots, b), f'.slotGen, f'.slotOwner, f.generation, f.numSlots)
    ensures Represents(f', PlacedState(st, slots, b, p))
  {
    AssignsPlace(st.pilots, f.processedGen, f.generation, f.pilots, |f.buckets|, b, p);
    hide AssignsBy, OwnsBy, PinsBy, HoldsBy, Place;
  }

  lemma PinStep(ring: seq<int>, bits: seq<Word>, n: nat, idx: nat, b: nat)
    requires PinsBy(ring, ring, bits, n) && idx < PINNED_SIZE && b < n && b !in ring
    requires forall i, j :: 0 <= i < j < PINNED_SIZE && ring[i] >= 0 ==> ring[i] != ring[j]
    ensures var cleared := if ring[idx] >= 0 then ClearPin(bits, ring[idx]) else bits;
            PinsBy(ring[idx := b], ring[idx := b], SetPin(cleared, b), n)
  {
    var cleared := if ring[idx] >= 0 then ClearPin(bits, ring[idx]) else bits;
    var next := ring[idx := b];
    forall c: nat | c < n ensures PinBit(SetPin(cleared, b), c) <==> c in next {
      assert next[idx] == b;
      if c in next && c != b {
        var i :| 0 <= i < PINNED_SIZE && next[i] == c;
        assert i != idx && ring[i] == c && ring[idx] != c;
      }
      if c != b && c in ring && c != ring[idx] {
        var i :| 0 <= i < PINNED_SIZE && ring[i] == c;
        assert next[i] == c;
      }
    }
  }

  lemma RingFacts(f: Fields, st: State)
    requires Represents(f, st) && RingInv(st)
    ensures |f.pinned| == PINNED_SIZE && f.pinnedIdx < PINNED_SIZE && f.pinned == st.ring && f.pinnedIdx == st.ringIdx
    ensures f.pinned[f.pinnedIdx] < |f.buckets| <= 64 * |f.pinnedBits|
  {
  }

  // Pinning b and counting a draw.
  lemma PinRepresents(f: Fields, f': Fields, st: State, b: nat)
    requires Represents(f, st) && RingInv(st) && b < |f.buckets| && b !in st.ring
    requires var cleared := if f.pinned[f.pinnedIdx] >= 0 then ClearPin(f.pinnedBits, f.pinned[f.pinnedIdx]) else f.pinnedBits;
             f' == f.(pinned := f.pinned[f.pinnedIdx := b], pinnedBits := SetPin(cleared, b),
                      pinnedIdx := (f.pinnedIdx + 1) % PINNED_SIZE)
    ensures Represents(f', PinnedState(st, b))
  {
    PinStep(st.ring, f.pinnedBits, |f.buckets|, st.ringIdx, b);
    hide AssignsBy, OwnsBy, HoldsBy;
  }

  ghost function Drawn(st: State): State {
    st.(draws := st.draws + 1)
  }

  lemma InvRing(B: Block, st: State)
    requires Inv(B, st)
    ensures RingInv(st)
  {
  }

  lemma DrawnInv(B: Block, st: State)
    requires Inv(B, st)
    ensures Inv(B, Drawn(st))
  {
  }

  ghost function PlacedState(st: State, slots: seq<nat>, b: nat, p: nat): State {
    st.(pilots := st.pilots[b := p], owner := Place(st.owner, slots, b))
  }

  ghost function PinnedState(st: State, b: nat): State
    requires st.ringIdx < |st.ring|
  {
    st.(ring := st.ring[st.ringIdx := b], ringIdx := (st.ringIdx + 1) % PINNED_SIZE)
  }

  // What may be assumed of the owners once collected.
  lemma CollectedFacts(B: Block, st: State, b: nat, p: nat, owners: seq<nat>)
    requires Inv(B, st) && Open(B, st, b) && Clear(st, B.Slots(b, p))
    requires NoDup(owners) && Elements(owners) == Evicted(st.owner, B.Slots(b, p))
    ensures forall k :: 0 <= k < |owners| ==> owners[k] in st.pilots
    ensures |owners| == |Evicted(st.owner, B.Slots(b, p))|
  {
    EvictedProcessed(B, st, B.Slots(b, p));
    hide Inv, Open, Clear, Evicted;
    NoDupSize(owners);
    forall k | 0 <= k < |owners| ensures owners[k] in st.pilots {
      assert owners[k] in Elements(owners);
    }
  }

  // Evicting and placing leave the ring sound: it holds none of the evicted buckets.
  lemma RingKept(B: Block, st: State, b: nat, p: nat, owners: seq<nat>)
    requires Inv(B, st) && Open(B, st, b) && Clear(st, B.Slots(b, p))
    requires Elements(owners) == Evicted(st.owner, B.Slots(b, p))
    ensures RingInv(PlacedState(AfterEvicting(Drawn(st), owners), B.Slots(b, p), b, p)) && b !in st.ring
  {
    EvictedProcessed(B, st, B.Slots(b, p));
    assert RingInv(st) && b !in st.pilots;
    hide Inv, Open, Clear, Evicted, Place, Unowned, Elements;
  }

  // Evicting, placing and pinning add up to the displacement.
  lemma DisplaceInSteps(B: Block, st: State, b: nat, p: nat, owners: seq<nat>)
    requires b < |B.buckets| && RingInv(st)
    requires NoDup(owners) && Elements(owners) == Evicted(st.owner, B.Slots(b, p))
    ensures var placed := PlacedState(AfterEvicting(Drawn(st), owners), B.Slots(b, p), b, p);
            placed.ring == st.ring && PinnedState(placed, b) == Displace(B, st, b, p)
  {
    NoDupSize(owners);
    assert |owners| == |Elements(owners)|;
    hide Evicted, Place, Unowned, Elements, NoDup;
  }

  lemma ProcessFree(B: Block, st: State, b: nat, rng: nat -> nat, pilot: nat, slots: seq<nat>)
    requires b < |B.buckets| && FindsFree(B, st.owner, b, true, pilot, slots)
    ensures Process(B, st, b, rng) == Ok(PlacedState(st, slots, b, pilot)) && pilot < 256
    ensures slots == B.Slots(b, pilot)
  {
  }

  lemma ProcessEvicting(B: Block, st: State, b: nat, rng: nat -> nat, pilot: nat, slots: seq<nat>, best: Best, bestSlots: seq<nat>)
    requires b < |B.buckets| && FindsFree(B, st.owner, b, false, pilot, slots)
    requires best == BestPilot(B, st, b, rng(st.draws) % NUM_PILOT_VALUES) && HoldsBest(B, b, best, bestSlots)
    ensures |bestSlots| > 0 ==>
              && best.pilot < 256 && bestSlots == B.Slots(b, best.pilot) && Clear(st, bestSlots)
              && Process(B, st, b, rng) == Ok(Displace(B, st, b, best.pilot))
    ensures |bestSlots| == 0 ==>
              Process(B, st, b, rng) ==
              Err(if !NoDup(InputsOf(B.buckets[b])) then DuplicateKey else IndistinguishableHashes)
  {
    assert Usable(B, st, b, best);
    hide Displace, Clear, Scan;
  }

  // The searches change tags but not what they stand for.
  lemma SearchRepresents(f: Fields, f': Fields, st: State)
    requires Represents(f, st)
    requires f' == f.(slotGen := f'.slotGen, slotOwner := f'.slotOwner)
    requires OwnsBy(st.owner, f'.slotGen, f'.slotOwner, f'.generation, f'.numSlots)
    ensures Represents(f', st)
  {
  }

  lemma DrawnRepresents(f: Fields, st: State)
    requires Represents(f, st)
    ensures Represents(f.(draws := f.draws + 1), Drawn(st))
  {
  }

  lemma SearchableFacts(f: Fields, B: Block, st: State)
    requires Represents(f, st) && Inv(B, st) && B.buckets == f.buckets
    ensures OwnsBy(st.owner, f.slotGen, f.slotOwner, f.generation, f.numSlots)
    ensures PinsBy(st.ring, f.pinned, f.pinnedBits, |f.buckets|)
    ensures f.draws == st.draws
    ensures forall s :: s in st.owner ==> st.owner[s] < |f.buckets|
  {
    forall s | s in st.owner ensures st.owner[s] < |f.buckets| { OwnerClaims(B, st, s); }
  }

  // The item ahead of all others in the heap is the top pending bucket.
  lemma PopIsTop(B: Block, bag: multiset<Item>, waiting: set<nat>, x: Item)
    requires HoldsBy(B.buckets, bag, waiting) && x in bag
    requires forall y :: y in bag ==> !Before(y, x)
    ensures waiting != {} && (forall b :: b in waiting ==> b < |B.buckets|) && x.idx == Top(Sizes(B), waiting)
  {
    var sizes := Sizes(B);
    forall b | b in waiting && b != x.idx ensures b < |sizes| && Ahead(sizes, x.idx, b) {
      assert Item(b, |B.buckets[b]|) in bag;
    }
    TopUnique(sizes, waiting, x.idx);
  }

  lemma DrainUnfolds(B: Block, st: State, rng: nat -> nat, maxEvictions: nat, b: nat)
    requires Inv(B, st) && b in st.pending
    requires (forall c :: c in st.pending ==> c < |B.buckets|) && b == Top(Sizes(B), st.pending)
    ensures b < |B.buckets|
    ensures Inv(B, Popped(st, b)) && Open(B, Popped(st, b), b)
    ensures var r := Process(B, Popped(st, b), b, rng);
            && (r.Ok? ==> Inv(B, r.value) && Shrinks(st, r.value))
            && Drain(B, st, rng, maxEvictions) ==
               if r.Err? then Err(r.error)
               else if r.value.evictions > maxEvictions then Err(EvictionLimitExceeded)
               else Drain(B, r.value, rng, maxEvictions)
  {
    PopOpens(B, st, b);
    PlacePopped(B, st, b, rng);
    assert PlaceTop(B, st, rng) == Process(B, Popped(st, b), b, rng);
    hide Inv, Process, PlaceTop, Top;
  }

  lemma ShrinksMeasure(st: State, next: State, maxEvictions: nat)
    requires Shrinks(st, next) && next.evictions <= maxEvictions
    ensures Budget(next.evictions, maxEvictions) < Budget(st.evictions, maxEvictions)
         || (Budget(next.evictions, maxEvictions) == Budget(st.evictions, maxEvictions) && |next.pending| < |st.pending|)
  {
  }

  lemma DrainDone(B: Block, st: State, rng: nat -> nat, maxEvictions: nat)
    requires Inv(B, st) && st.pending == {}
    ensures Drain(B, st, rng, maxEvictions) == Ok(st)
  {
  }

  lemma PoppedRepresents(f: Fields, f': Fields, st: State, x: Item)
    requires Represents(f, st) && f.bag == f'.bag + multiset{x} && f' == f.(bag := f'.bag)
    ensures x.idx in st.pending && x.idx < |f.buckets|
    ensures Represents(f', Popped(st, x.idx))
  {
    HoldsPop(f.buckets, f.bag, f'.bag, st.pending, x);
    hide AssignsBy, OwnsBy, PinsBy, HoldsBy;
  }

  lemma PendingIsBag(f: Fields, B: Block, st: State)
    requires Represents(f, st) && B.buckets == f.buckets
    ensures f.bag == multiset{} <==> st.pending == {}
    ensures f.evictions == st.evictions && HoldsBy(B.buckets, f.bag, st.pending)
  {
    if f.bag != multiset{} {
      var x :| x in f.bag;
    }
    if st.pending != {} {
      var b :| b in st.pending;
      assert Item(b, |f.buckets[b]|) in f.bag;
    }
  }

  lemma PlaceNothing(st: State, b: nat)
    ensures PlacedState(st, [], b, 0) == st.(pilots := st.pilots[b := 0])
  {
    assert Place(st.owner, [], b) == st.owner;
  }

  lemma ProcessedIs(f: Fields, st: State, b: nat)
    requires Represents(f, st) && b < |f.buckets|
    ensures b < |f.processedGen| && (b in st.pilots <==> f.processedGen[b] == f.generation)
    ensures f.evictions == st.evictions
  {
  }

  lemma TurnUnfolds(B: Block, st: State, b: nat, rng: nat -> nat, maxEvictions: nat)
    requires Inv(B, st) && st.pending == {} && b < |B.buckets|
    ensures B.Size(b) == 0 ==> Turn(B, st, b, rng, maxEvictions) == Ok(st.(pilots := st.pilots[b := 0]))
    ensures B.Size(b) > 0 && b in st.pilots ==> Turn(B, st, b, rng, maxEvictions) == Ok(st)
    ensures B.Size(b) > 0 && b !in st.pilots ==>
              var r := Process(B, st, b, rng);
              && Open(B, st, b)
              && (r.Ok? ==> Inv(B, r.value))
              && Turn(B, st, b, rng, maxEvictions) ==
                 if r.Err? then Err(r.error)
                 else
                   var d := Drain(B, r.value, rng, maxEvictions);
                   if d.Err? then Err(d.error)
                   else if d.value.evictions > maxEvictions then Err(EvictionLimitExceeded)
                   else d
  {
    if B.Size(b) > 0 && b !in st.pilots {
      ProcessStep(B, st, b, rng);
    }
    hide Inv, Process, Drain, Progress, Visits;
  }

  lemma SolveUnfolds(B: Block, order: seq<nat>, i: nat, st: State, rng: nat -> nat, maxEvictions: nat)
    requires Inv(B, st) && st.pending == {} && i < |order|
    requires forall k :: 0 <= k < |order| ==> order[k] < |B.buckets|
    ensures var r := Turn(B, st, order[i], rng, maxEvictions);
            && (r.Ok? ==> Inv(B, r.value) && r.value.pending == {})
            && SolveFrom(B, order, i, st, rng, maxEvictions) ==
               if r.Err? then Err(r.error) else SolveFrom(B, order, i + 1, r.value, rng, maxEvictions)
  {
    hide Inv, Turn, Visits;
  }

  lemma SolveFinishes(B: Block, order: seq<nat>, st: State, rng: nat -> nat, maxEvictions: nat)
    requires Inv(B, st) && st.pending == {} && forall k :: 0 <= k < |order| ==> order[k] < |B.buckets|
    ensures SolveFrom(B, order, |order|, st, rng, maxEvictions) == Ok(st)
  {
  }

  // The state after bucket o has given way.
  ghost function EvictedState(st: State, o: nat): State {
    st.(pilots := st.pilots - {o}, owner := Unowned(st.owner, {o}),
        evictions := st.evictions + 1, pending := st.pending + {o})
  }

  lemma EvictRepresents(f: Fields, f': Fields, st: State, o: nat)
    requires Represents(f, st) && f.generation > 0 && o < |f.buckets| && o !in st.pending
    requires f' == f.(slotGen := f'.slotGen, processedGen := f.processedGen[o := 0], evictions := f.evictions + 1,
                      bag := f.bag + multiset{Item(o, |f.buckets[o]|)})
    requires OwnsBy(Unowned(st.owner, {o}), f'.slotGen, f.slotOwner, f.generation, f.numSlots)
    ensures Represents(f', EvictedState(st, o))
  {
    AssignsEvict(st.pilots, f.processedGen, f.generation, f.pilots, |f.buckets|, o);
    HoldsPush(f.buckets, f.bag, f'.bag, st.pending, o);
    hide AssignsBy, OwnsBy, PinsBy, HoldsBy, Unowned;
  }

  // The state after the buckets of `s` have been evicted and queued.
  ghost function AfterEvicting(st: State, s: seq<nat>): State {
    var gone := Elements(s);
    st.(pilots := st.pilots - gone, owner := Unowned(st.owner, gone), evictions := st.evictions + |s|,
        pending := st.pending + gone)
  }

  // The next owner to evict is as EvictOwner wants it.
  lemma EvictNext(B: Block, st: State, s: seq<nat>, i: nat)
    requires Inv(B, st) && NoDup(s) && i < |s| && forall k :: 0 <= k < |s| ==> s[k] in st.pilots
    ensures var now, o := AfterEvicting(st, s[..i]), s[i];
            && o in now.pilots && o < |B.buckets| && o !in now.pending
            && (forall x :: x in now.owner && now.owner[x] == o ==> x in B.Slots(o, now.pilots[o]))
            && EvictedState(now, o) == AfterEvicting(st, s[..i + 1])
  {
    var now, o := AfterEvicting(st, s[..i]), s[i];
    EvictOneMore(st, s, i);
    PilotFacts(B, st, o);
    assert st.pending !! st.pilots.Keys;
    forall x | x in now.owner && now.owner[x] == o ensures x in B.Slots(o, st.pilots[o]) {
      OwnerClaims(B, st, x);
    }
  }

  lemma EvictNone(st: State, s: seq<nat>)
    ensures AfterEvicting(st, s[..0]) == st
  {
    assert Elements(s[..0]) == {};
    assert st.pilots - {} == st.pilots && Unowned(st.owner, {}) == st.owner;
  }

  lemma EvictOneMore(st: State, s: seq<nat>, i: nat)
    requires i < |s|
    ensures var a, z := AfterEvicting(st, s[..i]), AfterEvicting(st, s[..i + 1]);
            && z.pilots == a.pilots - {s[i]} && z.owner == Unowned(a.owner, {s[i]})
            && z.evictions == a.evictions + 1 && z.pending == a.pending + {s[i]}
            && z == a.(pilots := z.pilots, owner := z.owner, evictions := z.evictions, pending := z.pending)
  {
    assert s[..i + 1] == s[..i] + [s[i]];
    assert Elements(s[..i + 1]) == Elements(s[..i]) + {s[i]};
  }

  // `done` holds the table's entries for the overflow slots below `slot`.
  ghost predicate TableSoFar(taken: set<nat>, numKeys: nat, numSlots: nat, slot: nat, cursor: nat, done: seq<nat>) {
    && HolesFrom(taken, cursor, numKeys) == TakenFrom(taken, slot, numSlots)
    && done + Table(taken, numKeys, numSlots, slot, cursor) == Table(taken, numKeys, numSlots, numKeys, 0)
  }

  lemma TableStarts(taken: set<nat>, numKeys: nat, numSlots: nat)
    requires numKeys <= numSlots && |taken| == numKeys && forall s :: s in taken ==> s < numSlots
    ensures TableSoFar(taken, numKeys, numSlots, numKeys, 0, [])
  {
    HolesMatchOverflow(taken, numKeys, numSlots);
    assert [] + Table(taken, numKeys, numSlots, numKeys, 0) == Table(taken, numKeys, numSlots, numKeys, 0);
  }

  lemma TableSteps(taken: set<nat>, numKeys: nat, numSlots: nat, slot: nat, cursor: nat, done: seq<nat>)
    requires slot < numSlots && TableSoFar(taken, numKeys, numSlots, slot, cursor, done)
    ensures slot in taken ==>
              var h := NextHole(taken, cursor, numKeys);
              && HolesFrom(taken, cursor, numKeys) > 0
              && TableSoFar(taken, numKeys, numSlots, slot + 1, h + 1, done + [h])
    ensures slot !in taken ==> TableSoFar(taken, numKeys, numSlots, slot + 1, cursor, done + [0])
  {
    if slot in taken {
      NextHoleFound(taken, cursor, numKeys);
    }
  }

  lemma TableEnds(taken: set<nat>, numKeys: nat, numSlots: nat, cursor: nat, done: seq<nat>)
    requires TableSoFar(taken, numKeys, numSlots, numSlots, cursor, done)
    ensures done == Table(taken, numKeys, numSlots, numKeys, 0)
  {
    assert done + [] == done;
  }

  // A freshly reset solver stands for the initial state.
  lemma ResetRepresents(f: Fields)
    requires |f.buckets| <= |f.processedGen| && |f.buckets| <= |f.pilots| && |f.buckets| <= 64 * |f.pinnedBits|
    requires f.numSlots <= |f.slotGen| && f.numSlots <= |f.slotOwner|
    requires forall s :: 0 <= s < |f.slotGen| ==> f.slotGen[s] != f.generation
    requires forall b :: 0 <= b < |f.processedGen| ==> f.processedGen[b] != f.generation
    requires forall w :: 0 <= 64 * w < |f.buckets| ==> f.pinnedBits[w] == ZERO
    requires f.pinned == EMPTY_RING && f.pinnedIdx == 0 && f.evictions == 0 && f.draws == 0 && f.bag == multiset{}
    ensures Represents(f, INITIAL)
  {
    forall b: nat | b < |f.buckets| ensures !PinBit(f.pinnedBits, b) {
      assert f.pinnedBits[b / 64] == ZERO;
    }
  }

  lemma RepresentsEmptied(f: Fields, f': Fields)
    requires Represents(f.(bag := multiset{}, draws := 0), INITIAL)
    requires f' == f.(bag := multiset{}, draws := 0)
    ensures Represents(f', INITIAL)
  {
  }

  /** What a solve of a non-empty block does, without its size check. */
  lemma SolveIs(B: Block, order: seq<nat>, rng: nat -> nat)
    requires IsOrder(Sizes(B), order) && B.numSlots < 0x1_0000
    ensures Inv(B, INITIAL) && INITIAL.pending == {} && forall k :: 0 <= k < |order| ==> order[k] < |B.buckets|
    ensures Solve(B, order, rng) == SolveFrom(B, order, 0, INITIAL, rng, MaxEvictions(B.numSlots))
  {
    InitialInv(B);
    hide Inv, SolveFrom;
  }

  // What is taken once every bucket is placed.
  lemma SolvedTaken(B: Block, order: seq<nat>, rng: nat -> nat, f: Fields)
    requires IsOrder(Sizes(B), order) && B.InRange() && B.numSlots < 0x1_0000
    requires Solve(B, order, rng).Ok? && Represents(f, Solve(B, order, rng).value)
    requires f.buckets == B.buckets && f.numSlots == B.numSlots
    ensures var st := Solve(B, order, rng).value;
            && |st.owner.Keys| == SumSizes(B.buckets, |B.buckets|)
            && (forall s :: s in st.owner.Keys ==> s < B.numSlots)
            && B.numSlots <= |f.slotGen|
            && (forall s: nat :: s < B.numSlots ==> (s in st.owner.Keys <==> f.slotGen[s] == f.generation))
            && |B.buckets| <= |f.pilots|
            && (forall b :: 0 <= b < |B.buckets| ==> b in st.pilots && f.pilots[b] == st.pilots[b])
  {
    SolveIs(B, order, rng);
    hide *;
    SolveComplete(B, order, rng);
    var st := Solve(B, order, rng).value;
    AllTaken(B, st);
    PlacedFacts(f, st);
  }

  lemma PlacedFacts(f: Fields, st: State)
    requires Represents(f, st) && st.pilots.Keys == Range(|f.buckets|)
    ensures f.numSlots <= |f.slotGen| && |f.buckets| <= |f.pilots|
    ensures forall s: nat :: s < f.numSlots ==> (s in st.owner.Keys <==> f.slotGen[s] == f.generation)
    ensures forall b :: 0 <= b < |f.buckets| ==> b in st.pilots && f.pilots[b] == st.pilots[b]
  {
  }

  lemma ModDifference(a: nat, n: nat)
    ensures ((a + n) % 0x1_0000 - a % 0x1_0000) % 0x1_0000 == n % 0x1_0000
  {
  }

  // Cumulative counts as stored in uint16.
  ghost predicate IsStarts(buckets: seq<seq<Entry>>, starts: seq<nat>, n: nat)
    requires n <= |buckets| + 1
  {
    |starts| == n && forall b :: 0 <= b < n ==> starts[b] == SumSizes(buckets, b) % 0x1_0000
  }

  lemma StartsStep(buckets: seq<seq<Entry>>, starts: seq<nat>, n: nat)
    requires n <= |buckets| && IsStarts(buckets, starts, n)
    ensures IsStarts(buckets, starts + [SumSizes(buckets, n) % 0x1_0000], n + 1)
    ensures n < |buckets| ==> SumSizes(buckets, n + 1) == SumSizes(buckets, n) + |buckets[n]|
  {
  }

  // Differences of the stored counts are the sizes, as long as they fit.
  lemma SizeFromStarts(buckets: seq<seq<Entry>>, starts: seq<nat>, b: nat)
    requires IsStarts(buckets, starts, |buckets| + 1) && b < |buckets|
    ensures SizesOf(starts)[b] == |buckets[b]| % 0x1_0000
  {
    var before := SumSizes(buckets, b);
    assert starts[b] == before % 0x1_0000;
    assert starts[b + 1] == (before + |buckets[b]|) % 0x1_0000;
    hide SumSizes, IsStarts;
    ModDifference(before, |buckets[b]|);
  }

  lemma OrderFromStarts(buckets: seq<seq<Entry>>, starts: seq<nat>, order: seq<nat>, hash: SlotHash, n: nat)
    requires IsStarts(buckets, starts, |buckets| + 1) && |starts| > 0 && IsOrder(SizesOf(starts), order)
    requires forall b :: 0 <= b < |buckets| ==> |buckets[b]| < 0x1_0000
    ensures IsOrder(Sizes(Block(hash, buckets, n)), order)
  {
    var sizes := Sizes(Block(hash, buckets, n));
    forall b | 0 <= b < |buckets| ensures SizesOf(starts)[b] == sizes[b] {
      SizeFromStarts(buckets, starts, b);
    }
    hide IsOrder, SizesOf, IsStarts;
    assert sizes == SizesOf(starts);
  }

  lemma CountsFit(buckets: seq<seq<Entry>>, starts: seq<nat>, max: nat)
    requires IsStarts(buckets, starts, |buckets| + 1)
    requires forall b :: 0 <= b < |buckets| ==> |buckets[b]| <= max
    ensures |starts| == |buckets| + 1 && forall b :: 0 <= b < |buckets| ==> SizesOf(starts)[b] < max + 1
  {
    forall b | 0 <= b < |buckets| ensures SizesOf(starts)[b] < max + 1 {
      SizeFromStarts(buckets, starts, b);
      hide SizesOf, IsStarts;
      assert |buckets[b]| % 0x1_0000 <= |buckets[b]|;
    }
  }
}
