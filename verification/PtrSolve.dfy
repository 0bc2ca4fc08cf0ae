/** Whole runs of the PTRHash solver: the eviction drain, the main loop over the
    sorted buckets, and the remap table. */
module PtrSolve {
  import opened Basics
  import opened PtrSpec
  import opened PtrInvariant

  // ---------- Pop order ----------

  // Larger bucket first, then lower index.
  predicate Ahead(sizes: seq<nat>, a: nat, b: nat)
    requires a < |sizes| && b < |sizes|
  {
    sizes[a] > sizes[b] || (sizes[a] == sizes[b] && a < b)
  }

  ghost predicate IsTop(sizes: seq<nat>, pending: set<nat>, t: nat) {
    && (forall b :: b in pending ==> b < |sizes|)
    && t in pending
    && forall b :: b in pending && b != t ==> Ahead(sizes, t, b)
  }

  lemma {:induction false} TopExists(sizes: seq<nat>, pending: set<nat>)
    requires pending != {} && forall b :: b in pending ==> b < |sizes|
    ensures exists t :: IsTop(sizes, pending, t)
    decreases |pending|
  {
    var x :| x in pending;
    var rest := pending - {x};
    if rest == {} {
      assert pending == {x};
      assert IsTop(sizes, pending, x);
    } else {
      TopExists(sizes, rest);
      var t :| IsTop(sizes, rest, t);
      assert forall b :: b in pending ==> b == x || b in rest;
      assert IsTop(sizes, pending, if Ahead(sizes, x, t) then x else t);
    }
  }

  // The heap's next bucket depends only on what is pending, not on push order.
  ghost function Top(sizes: seq<nat>, pending: set<nat>): (t: nat)
    requires pending != {} && forall b :: b in pending ==> b < |sizes|
    ensures IsTop(sizes, pending, t)
  {
    TopExists(sizes, pending);
    var t :| IsTop(sizes, pending, t);
    t
  }

  lemma TopUnique(sizes: seq<nat>, pending: set<nat>, t: nat)
    requires IsTop(sizes, pending, t)
    ensures pending != {} && Top(sizes, pending) == t
  {
  }

  ghost function Sizes(B: Block): (r: seq<nat>)
    ensures |r| == |B.buckets| && forall b :: 0 <= b < |r| ==> r[b] == |B.buckets[b]|
  {
    seq(|B.buckets|, b requires 0 <= b < |B.buckets| => |B.buckets[b]|)
  }

  // ---------- Draining the heap ----------

  lemma PendingBounds(B: Block, st: State)
    requires Inv(B, st)
    ensures forall b :: b in st.pending ==> b < |B.buckets|
  {
  }

  lemma PopOpens(B: Block, st: State, b: nat)
    requires Inv(B, st) && b in st.pending
    ensures Inv(B, Popped(st, b)) && Open(B, Popped(st, b), b)
  {
  }

  function Budget(evictions: nat, maxEvictions: nat): nat {
    if evictions > maxEvictions then 0 else maxEvictions + 1 - evictions
  }

  ghost predicate SameVisited(st: State, st': State) {
    forall c :: c in st'.pilots || c in st'.pending <==> c in st.pilots || c in st.pending
  }

  ghost predicate Shrinks(st: State, st': State) {
    st'.evictions > st.evictions || (st'.evictions == st.evictions && |st'.pending| < |st.pending|)
  }

  function Popped(st: State, b: nat): State {
    st.(pending := st.pending - {b})
  }

  lemma PlacePopped(B: Block, st: State, b: nat, rng: nat -> nat)
    requires Inv(B, st) && b in st.pending
    ensures b < |B.buckets|
    ensures var r := Process(B, Popped(st, b), b, rng);
            r.Ok? ==> Inv(B, r.value) && SameVisited(st, r.value) && Shrinks(st, r.value)
  {
    hide Process;
    PopOpens(B, st, b);
    hide Inv;
    ProcessStep(B, Popped(st, b), b, rng);
    assert |st.pending - {b}| < |st.pending|;
  }

  // Take the top bucket off the heap and place it.
  ghost function PlaceTop(B: Block, st: State, rng: nat -> nat): (r: Result<State, Error>)
    requires Inv(B, st) && st.pending != {}
    ensures r.Ok? ==> Inv(B, r.value) && SameVisited(st, r.value) && Shrinks(st, r.value)
  {
    hide Inv, Process, SameVisited, Shrinks;
    PendingBounds(B, st);
    var b := Top(Sizes(B), st.pending);
    PlacePopped(B, st, b, rng);
    Process(B, Popped(st, b), b, rng)
  }

  // Pop and place until nothing is pending; the measure is the termination proof.
  ghost function Drain(B: Block, st: State, rng: nat -> nat, maxEvictions: nat): (r: Result<State, Error>)
    requires Inv(B, st)
    ensures r.Ok? ==> Inv(B, r.value) && SameVisited(st, r.value) && r.value.pending == {}
    decreases Budget(st.evictions, maxEvictions), |st.pending|
  {
    hide Inv;
    if st.pending == {} then Ok(st)
    else
      match PlaceTop(B, st, rng)
      case Err(e) => Err(e)
      case Ok(next) =>
        if next.evictions > maxEvictions then Err(EvictionLimitExceeded)
        else Drain(B, next, rng, maxEvictions)
  }

  // ---------- The main loop ----------

  // Place a bucket and drain what it evicted.
  ghost function PlaceAndDrain(B: Block, st: State, b: nat, rng: nat -> nat, maxEvictions: nat): (r: Result<State, Error>)
    requires Inv(B, st) && st.pending == {} && Open(B, st, b)
    ensures r.Ok? ==> Inv(B, r.value) && Visits(st, r.value, b) && r.value.pending == {}
  {
    hide Inv, Process, Progress, Open, Visits, SameVisited, Drain;
    ProcessStep(B, st, b, rng);
    match Process(B, st, b, rng)
    case Err(e) => Err(e)
    case Ok(placed) =>
      match Drain(B, placed, rng, maxEvictions)
      case Err(e) => Err(e)
      case Ok(next) =>
        VisitsOn(st, placed, next, b);
        if next.evictions > maxEvictions then Err(EvictionLimitExceeded) else Ok(next)
  }

  lemma VisitsOn(st: State, placed: State, next: State, b: nat)
    requires Visits(st, placed, b) && SameVisited(placed, next)
    ensures Visits(st, next, b)
  {
  }

  lemma NewlyOpen(B: Block, st: State, b: nat)
    requires st.pending == {} && b < |B.buckets| && B.Size(b) > 0 && b !in st.pilots
    ensures Open(B, st, b)
  {
  }

  // One iteration over bucket `b` of the sorted order.
  ghost function Turn(B: Block, st: State, b: nat, rng: nat -> nat, maxEvictions: nat): (r: Result<State, Error>)
    requires Inv(B, st) && st.pending == {} && b < |B.buckets|
    ensures r.Ok? ==> Inv(B, r.value) && Visits(st, r.value, b) && r.value.pending == {}
  {
    hide Inv, PlaceAndDrain, Open;
    if B.Size(b) == 0 then
      EmptyBucket(B, st, b);
      Ok(st.(pilots := st.pilots[b := 0]))
    else if b in st.pilots then Ok(st)
    else
      NewlyOpen(B, st, b);
      PlaceAndDrain(B, st, b, rng, maxEvictions)
  }

  // Every bucket of the order from `i` on, and every bucket of `st`, is processed in `st'`.
  ghost predicate Covers(order: seq<nat>, i: nat, st: State, st': State) {
    && (forall c :: c in st.pilots ==> c in st'.pilots)
    && (forall k :: i <= k < |order| ==> order[k] in st'.pilots)
  }

  lemma CoversStep(order: seq<nat>, i: nat, st: State, mid: State, st': State)
    requires i < |order| && st.pending == {} && mid.pending == {}
    requires Visits(st, mid, order[i]) && Covers(order, i + 1, mid, st')
    ensures Covers(order, i, st, st')
  {
  }

  ghost function SolveFrom(B: Block, order: seq<nat>, i: nat, st: State, rng: nat -> nat, maxEvictions: nat): (r: Result<State, Error>)
    requires Inv(B, st) && st.pending == {}
    requires i <= |order| && forall k :: 0 <= k < |order| ==> order[k] < |B.buckets|
    ensures r.Ok? ==> Inv(B, r.value) && Covers(order, i, st, r.value)
    decreases |order| - i
  {
    hide Inv, Turn, Visits;
    if i == |order| then Ok(st)
    else
      match Turn(B, st, order[i], rng, maxEvictions)
      case Err(e) => Err(e)
      case Ok(next) =>
        var r := SolveFrom(B, order, i + 1, next, rng, maxEvictions);
        if r.Ok? then
          CoversStep(order, i, st, next, r.value);
          r
        else r
  }

  lemma EmptyClaim(claims: map<nat, set<nat>>, owner: map<nat, nat>, b: nat)
    requires Partition(claims, owner) && (b in claims ==> claims[b] == {})
    ensures Partition(claims[b := {}], owner)
  {
  }

  lemma EmptyBucket(B: Block, st: State, b: nat)
    requires Inv(B, st) && st.pending == {}
    requires b < |B.buckets| && B.Size(b) == 0
    ensures Inv(B, st.(pilots := st.pilots[b := 0]))
  {
    assert forall p :: B.Slots(b, p) == [] && SlotSet(B, b, p) == {};
    PilotsStep(B, st.pilots, {}, b, 0);
    ClaimsStep(B, st.pilots, {}, b, 0);
    assert st.pilots - {} == st.pilots && Claims(B, st.pilots) - {} == Claims(B, st.pilots);
    EmptyClaim(Claims(B, st.pilots), st.owner, b);
  }

  lemma InitialInv(B: Block)
    ensures Inv(B, INITIAL)
  {
  }

  function MaxEvictions(numSlots: nat): nat { MAX_EVICTION_MULTIPLIER * numSlots }

  // `order` is what the counting sort produced; `rng` is the attempt's draws.
  ghost function Solve(B: Block, order: seq<nat>, rng: nat -> nat): Result<State, Error>
    requires forall i :: 0 <= i < |order| ==> order[i] < |B.buckets|
  {
    InitialInv(B);
    if B.numSlots > MAX_UINT16 then Err(BlockOverflow)
    else SolveFrom(B, order, 0, INITIAL, rng, MaxEvictions(B.numSlots))
  }

  // `order` lists every bucket once, larger buckets first and equal ones by index.
  ghost predicate IsOrder(sizes: seq<nat>, order: seq<nat>) {
    && |order| == |sizes|
    && (forall i :: 0 <= i < |order| ==> order[i] < |sizes|)
    && (forall i, j :: 0 <= i < j < |order| ==> Ahead(sizes, order[i], order[j]))
  }

  lemma OrderCovers(sizes: seq<nat>, order: seq<nat>)
    requires IsOrder(sizes, order)
    ensures (set b | b in order) == Range(|sizes|)
  {
    assert NoDup(order);
    NoDupSize(order);
    SubsetSize((set b | b in order), Range(|sizes|));
  }

  /** A solve that reports no error has given every bucket a pilot, and the slots
      of all buckets are disjoint. */
  lemma SolveComplete(B: Block, order: seq<nat>, rng: nat -> nat)
    requires IsOrder(Sizes(B), order)
    ensures var r := Solve(B, order, rng);
            r.Ok? ==> Inv(B, r.value) && r.value.pilots.Keys == Range(|B.buckets|)
  {
    OrderCovers(Sizes(B), order);
  }

  // ---------- What an error says ----------

  // Some bucket holds equal slot inputs.
  ghost predicate HasTwins(B: Block) { exists b: nat :: b < |B.buckets| && B.HasDuplicateInput(b) }

  // The solve was right to report what it reports.
  ghost predicate Honest(B: Block, r: Result<State, Error>) { r == Err(DuplicateKey) ==> HasTwins(B) }

  lemma ProcessHonest(B: Block, st: State, b: nat, rng: nat -> nat)
    requires b < |B.buckets|
    ensures Honest(B, Process(B, st, b, rng))
  {
    hide FreePilot, BestPilot;
  }

  lemma {:induction false} DrainHonest(B: Block, st: State, rng: nat -> nat, maxEvictions: nat)
    requires Inv(B, st)
    ensures Honest(B, Drain(B, st, rng, maxEvictions))
    decreases Budget(st.evictions, maxEvictions), |st.pending|
  {
    hide Inv, Honest, Process;
    if st.pending == {} {
      OkHonest(B, st);
    } else {
      PendingBounds(B, st);
      ProcessHonest(B, Popped(st, Top(Sizes(B), st.pending)), Top(Sizes(B), st.pending), rng);
      var r := PlaceTop(B, st, rng);
      if r.Ok? {
        if r.value.evictions <= maxEvictions {
          DrainHonest(B, r.value, rng, maxEvictions);
        } else {
          LimitHonest(B);
        }
      }
    }
  }

  lemma OkHonest(B: Block, st: State)
    ensures Honest(B, Ok(st))
  {
  }

  lemma LimitHonest(B: Block)
    ensures Honest(B, Err(EvictionLimitExceeded)) && Honest(B, Err(BlockOverflow))
  {
  }

  lemma PlaceHonest(B: Block, st: State, b: nat, rng: nat -> nat, maxEvictions: nat)
    requires Inv(B, st) && st.pending == {} && Open(B, st, b)
    ensures b < |B.buckets| && Honest(B, PlaceAndDrain(B, st, b, rng, maxEvictions))
  {
    hide Inv, Honest, Process, Drain;
    ProcessHonest(B, st, b, rng);
    ProcessStep(B, st, b, rng);
    LimitHonest(B);
    var placed := Process(B, st, b, rng);
    if placed.Ok? {
      DrainHonest(B, placed.value, rng, maxEvictions);
      var r := Drain(B, placed.value, rng, maxEvictions);
      if r.Ok? { OkHonest(B, r.value); }
    }
  }

  lemma TurnHonest(B: Block, st: State, b: nat, rng: nat -> nat, maxEvictions: nat)
    requires Inv(B, st) && st.pending == {} && b < |B.buckets|
    ensures Honest(B, Turn(B, st, b, rng, maxEvictions))
  {
    if B.Size(b) > 0 && b !in st.pilots {
      NewlyOpen(B, st, b);
      PlaceHonest(B, st, b, rng, maxEvictions);
    }
    hide Inv, PlaceAndDrain, Open, HasTwins;
  }

  lemma {:induction false} FromHonest(B: Block, order: seq<nat>, i: nat, st: State, rng: nat -> nat, maxEvictions: nat)
    requires Inv(B, st) && st.pending == {}
    requires i <= |order| && forall k :: 0 <= k < |order| ==> order[k] < |B.buckets|
    ensures Honest(B, SolveFrom(B, order, i, st, rng, maxEvictions))
    decreases |order| - i
  {
    hide Inv, Turn, Honest;
    if i == |order| {
      OkHonest(B, st);
    } else {
      TurnHonest(B, st, order[i], rng, maxEvictions);
      var r := Turn(B, st, order[i], rng, maxEvictions);
      if r.Ok? {
        FromHonest(B, order, i + 1, r.value, rng, maxEvictions);
      }
    }
  }

  /** A solve reports a duplicate key only of a block that has one: two keys of a bucket with equal
      slot inputs. */
  lemma DuplicatesAreReal(B: Block, order: seq<nat>, rng: nat -> nat)
    requires forall i :: 0 <= i < |order| ==> order[i] < |B.buckets|
    ensures Honest(B, Solve(B, order, rng))
  {
    InitialInv(B);
    LimitHonest(B);
    hide Inv, Honest, SolveFrom;
    if B.numSlots <= MAX_UINT16 {
      FromHonest(B, order, 0, INITIAL, rng, MaxEvictions(B.numSlots));
    }
  }
}
