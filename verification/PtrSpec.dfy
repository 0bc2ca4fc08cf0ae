/** What the PTRHash block solver computes, as functions of the block alone.

    The solver is a cuckoo machine: it gives each bucket a pilot, and a bucket
    owns the slots its keys reach under that pilot.  The functions here say
    which state each step leads to; PtrSolver.dfy proves the imperative solver
    against them, and PtrSolve.dfy, PtrOrder.dfy and PtrDecoder.dfy what they promise. */
module PtrSpec {
  import opened Basics

  const NUM_PILOT_VALUES := 256
  const PINNED_SIZE := 16
  const MAX_EVICTION_MULTIPLIER := 10
  const MAX_INT := 0x7FFF_FFFF_FFFF_FFFF
  const MAX_UINT16 := 0xFFFF

  // Keys with equal slot inputs reach equal slots under every pilot.
  function SlotInput(k0: bv64, k1: bv64): bv64 { k0 ^ k1 }

  // A key as its builder holds it; the suffix is the key's second word.
  datatype Entry = Entry(k0: bv64, suffix: bv64, payload: nat, fingerprint: nat) {
    function Input(): bv64 { SlotInput(k0, suffix) }
  }

  // slot input, pilot, number of slots -> slot
  type SlotHash = (bv64, nat, nat) -> nat

  datatype Error = DuplicateKey | IndistinguishableHashes | EvictionLimitExceeded | BlockOverflow

  function SlotsOf(hash: SlotHash, bucket: seq<Entry>, pilot: nat, numSlots: nat): seq<nat> {
    Map((e: Entry) => hash(e.Input(), pilot, numSlots), bucket)
  }

  function InputsOf(bucket: seq<Entry>): seq<bv64> {
    Map((e: Entry) => e.Input(), bucket)
  }

  // A block's keys grouped by bucket, with the geometry it is solved for.
  datatype Block = Block(hash: SlotHash, buckets: seq<seq<Entry>>, numSlots: nat) {
    function Slots(b: nat, pilot: nat): (r: seq<nat>)
      requires b < |buckets|
      ensures |r| == |buckets[b]|
    {
      SlotsOf(hash, buckets[b], pilot, numSlots)
    }

    function Size(b: nat): nat
      requires b < |buckets|
    {
      |buckets[b]|
    }

    ghost predicate InRange() {
      forall x, p :: hash(x, p, numSlots) < numSlots
    }

    ghost predicate HasDuplicateInput(b: nat)
      requires b < |buckets|
    {
      !NoDup(InputsOf(buckets[b]))
    }
  }

  /** pilots: the processed buckets and their pilots.  owner: the taken slots and
      the bucket each belongs to.  ring/ringIdx: the 16 most recent Phase-2
      placements (-1 is an empty entry).  pending: visited but evicted buckets.
      draws: how many Phase-2 start pilots were drawn. */
  datatype State = State(
    pilots: map<nat, nat>,
    owner: map<nat, nat>,
    ring: seq<int>,
    ringIdx: nat,
    evictions: nat,
    draws: nat,
    pending: set<nat>
  )

  const EMPTY_RING: seq<int> := [-1, -1, -1, -1, -1, -1, -1, -1, -1, -1, -1, -1, -1, -1, -1, -1]

  const INITIAL := State(map[], map[], EMPTY_RING, 0, 0, 0, {})

  // ---------- Phase 1 ----------

  // Every slot is free and no two coincide.
  ghost predicate Fits(owner: map<nat, nat>, slots: seq<nat>) {
    NoDup(slots) && forall s :: s in slots ==> s !in owner
  }

  // The least pilot at or after `from` under which the bucket fits.
  ghost function FreePilot(B: Block, owner: map<nat, nat>, b: nat, from: nat): (r: Option<nat>)
    requires b < |B.buckets|
    ensures r.Some? ==> from <= r.value < NUM_PILOT_VALUES && Fits(owner, B.Slots(b, r.value))
    ensures r.Some? ==> forall p :: from <= p < r.value ==> !Fits(owner, B.Slots(b, p))
    ensures r.None? ==> forall p :: from <= p < NUM_PILOT_VALUES ==> !Fits(owner, B.Slots(b, p))
    decreases NUM_PILOT_VALUES - from, b
  {
    if from >= NUM_PILOT_VALUES then None
    else if Fits(owner, B.Slots(b, from)) then Some(from)
    else FreePilot(B, owner, b, from + 1)
  }

  // ---------- Phase 2 ----------

  datatype Best = Best(found: bool, pilot: nat, score: nat)

  // Squared sizes of the owners hit, one term per slot.
  ghost function Score(B: Block, owner: map<nat, nat>, slots: seq<nat>): nat {
    if |slots| == 0 then 0
    else Score(B, owner, slots[..|slots| - 1]) + Weight(B, owner, slots[|slots| - 1])
  }

  ghost function Weight(B: Block, owner: map<nat, nat>, slot: nat): nat {
    if slot in owner && owner[slot] < |B.buckets| then B.Size(owner[slot]) * B.Size(owner[slot]) else 0
  }

  ghost predicate HitsPinned(st: State, slots: seq<nat>) {
    exists s :: s in slots && s in st.owner && st.owner[s] in st.ring
  }

  ghost predicate Improves(B: Block, st: State, slots: seq<nat>, best: Best) {
    Clear(st, slots) && Score(B, st.owner, slots) < best.score
  }

  // A pilot Phase 2 may settle on: distinct slots, none of a pinned bucket.
  ghost predicate Usable(B: Block, st: State, b: nat, best: Best)
    requires b < |B.buckets|
  {
    best.found ==>
      best.pilot < NUM_PILOT_VALUES && Clear(st, B.Slots(b, best.pilot))
  }

  ghost predicate Clear(st: State, slots: seq<nat>) {
    NoDup(slots) && !HitsPinned(st, slots)
  }

  ghost function Scan(B: Block, st: State, b: nat, start: nat, delta: nat, best: Best): (r: Best)
    requires b < |B.buckets|
    ensures Usable(B, st, b, best) ==> Usable(B, st, b, r)
    decreases NUM_PILOT_VALUES - delta, b
  {
    if delta >= NUM_PILOT_VALUES then best
    else
      var pilot := (start + delta) % NUM_PILOT_VALUES;
      var slots := B.Slots(b, pilot);
      if Improves(B, st, slots, best) then
        var next := Best(true, pilot, Score(B, st.owner, slots));
        if next.score <= B.Size(b) * B.Size(b) then next
        else Scan(B, st, b, start, delta + 1, next)
      else Scan(B, st, b, start, delta + 1, best)
  }

  ghost function BestPilot(B: Block, st: State, b: nat, start: nat): Best
    requires b < |B.buckets|
  {
    Scan(B, st, b, start, 0, Best(false, 0, MAX_INT))
  }

  // The owners that must give way for a placement on `slots`.
  ghost function Evicted(owner: map<nat, nat>, slots: seq<nat>): set<nat> {
    set s | s in slots && s in owner :: owner[s]
  }

  ghost function Unowned(owner: map<nat, nat>, gone: set<nat>): map<nat, nat> {
    map s | s in owner && owner[s] !in gone :: owner[s]
  }

  ghost function Place(owner: map<nat, nat>, slots: seq<nat>, b: nat): map<nat, nat> {
    owner + map s | s in slots :: b
  }

  // ---------- One bucket ----------

  ghost function Process(B: Block, st: State, b: nat, rng: nat -> nat): Result<State, Error>
    requires b < |B.buckets|
  {
    match FreePilot(B, st.owner, b, 0)
    case Some(p) =>
      Ok(st.(pilots := st.pilots[b := p], owner := Place(st.owner, B.Slots(b, p), b)))
    case None =>
      var best := BestPilot(B, st, b, rng(st.draws) % NUM_PILOT_VALUES);
      if !best.found then
        Err(if B.HasDuplicateInput(b) then DuplicateKey else IndistinguishableHashes)
      else
        Ok(Displace(B, st, b, best.pilot))
  }

  ghost function Displace(B: Block, st: State, b: nat, pilot: nat): State
    requires b < |B.buckets|
  {
    var slots := B.Slots(b, pilot);
    var gone := Evicted(st.owner, slots);
    State(
      (st.pilots - gone)[b := pilot],
      Place(Unowned(st.owner, gone), slots, b),
      if st.ringIdx < |st.ring| then st.ring[st.ringIdx := b] else st.ring,
      (st.ringIdx + 1) % PINNED_SIZE,
      st.evictions + |gone|,
      st.draws + 1,
      st.pending + gone)
  }

  // ---------- The step invariant ----------

  ghost function SlotSet(B: Block, b: nat, pilot: nat): set<nat>
    requires b < |B.buckets|
  {
    set s | s in B.Slots(b, pilot)
  }

  // The slots each processed bucket lays claim to.
  ghost function Claims(B: Block, pilots: map<nat, nat>): map<nat, set<nat>> {
    map b | b in pilots && b < |B.buckets| :: SlotSet(B, b, pilots[b])
  }

  /** `owner` is the disjoint union of the claims: it names the claimant of every
      claimed slot and nothing else. */
  ghost predicate Partition(claims: map<nat, set<nat>>, owner: map<nat, nat>) {
    && (forall b, s :: b in claims && s in claims[b] ==> s in owner && owner[s] == b)
    && (forall s :: s in owner ==> owner[s] in claims && s in claims[owner[s]])
  }

  /** The taken slots are exactly those of the processed buckets under their
      pilots, each owned by its bucket; the ring holds processed buckets without
      repeats; pending buckets are unprocessed. */
  ghost predicate Inv(B: Block, st: State) {
    && PilotsInv(B, st.pilots)
    && Partition(Claims(B, st.pilots), st.owner)
    && RingInv(st)
    && PendingInv(B, st)
  }

  ghost predicate PilotsInv(B: Block, pilots: map<nat, nat>) {
    forall b :: b in pilots ==>
      b < |B.buckets| && pilots[b] < NUM_PILOT_VALUES && NoDup(B.Slots(b, pilots[b]))
  }

  ghost predicate RingInv(st: State) {
    && |st.ring| == PINNED_SIZE
    && st.ringIdx < PINNED_SIZE
    && (forall i :: 0 <= i < PINNED_SIZE ==> st.ring[i] == -1 || (st.ring[i] >= 0 && st.ring[i] in st.pilots))
    && (forall i, j :: 0 <= i < j < PINNED_SIZE && st.ring[i] >= 0 ==> st.ring[i] != st.ring[j])
  }

  ghost predicate PendingInv(B: Block, st: State) {
    && st.pending !! st.pilots.Keys
    && (forall b :: b in st.pending ==> b < |B.buckets| && B.Size(b) > 0)
  }

  // The buckets that may be handed to Process.
  ghost predicate Open(B: Block, st: State, b: nat) {
    b < |B.buckets| && B.Size(b) > 0 && b !in st.pilots && b !in st.pending
  }
}
