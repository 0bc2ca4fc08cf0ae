/** When the PTRHash solver may give up: the states it can reach by placing buckets, and what each
    error says about one of them. */
module PtrErrors {
  import opened Basics
  import opened PtrSpec
  import opened PtrInvariant
  import opened PtrSolve
  import opened PtrBuilder

  // ---------- States reached by placements ----------

  // Bucket b is placed, newly or because it was evicted; an empty one takes pilot 0.
  ghost predicate PlacedAt(B: Block, rng: nat -> nat, s: State, t: State, b: nat) {
    && b < |B.buckets|
    && if |B.buckets[b]| == 0 then t == s.(pilots := s.pilots[b := 0])
       else b !in s.pilots && Process(B, s.(pending := s.pending - {b}), b, rng) == Ok(t)
  }

  // s is reached from an empty table by n placements; `recent` lists the buckets that drew a start
  // pilot, being placed by eviction.
  ghost predicate Reached(B: Block, rng: nat -> nat, n: nat, s: State, recent: seq<nat>) {
    if n == 0 then s == State(map[], map[], seq(16, _ => -1), 0, 0, 0, {}) && recent == []
    else exists p: State, b: nat, before: seq<nat> :: Reached(B, rng, n - 1, p, before) && Follows(B, rng, p, before, s, recent, b)
  }

  ghost predicate Follows(B: Block, rng: nat -> nat, s: State, recent: seq<nat>, t: State, recent': seq<nat>, b: nat) {
    PlacedAt(B, rng, s, t, b) && recent' == if t.draws == s.draws then recent else recent + [b]
  }

  lemma OneMorePlaced(B: Block, rng: nat -> nat, n: nat, s: State, recent: seq<nat>, t: State, recent': seq<nat>, b: nat)
    requires Reached(B, rng, n, s, recent) && Follows(B, rng, s, recent, t, recent', b)
    ensures Reached(B, rng, n + 1, t, recent')
  {
    hide Follows;
  }

  ghost predicate Reachable(B: Block, rng: nat -> nat, s: State) {
    exists n: nat, recent: seq<nat> :: Reached(B, rng, n, s, recent)
  }

  lemma StartReachable(B: Block, rng: nat -> nat)
    ensures Reachable(B, rng, INITIAL)
  {
    assert EMPTY_RING == seq(16, _ => -1);
    assert Reached(B, rng, 0, INITIAL, []);
  }

  lemma ReachesOn(B: Block, rng: nat -> nat, s: State, t: State, b: nat)
    requires Reachable(B, rng, s) && PlacedAt(B, rng, s, t, b)
    ensures Reachable(B, rng, t)
  {
    var n: nat, recent: seq<nat> :| Reached(B, rng, n, s, recent);
    hide PlacedAt, Reached;
    OneMorePlaced(B, rng, n, s, recent, t, if t.draws == s.draws then recent else recent + [b], b);
  }

  // The ring holds the sixteen latest of `recent`, each at its place.
  ghost predicate RingOf(s: State, recent: seq<nat>) {
    && |s.ring| == 16 && s.ringIdx == |recent| % 16 && s.draws == |recent|
    && (forall i: nat :: |recent| <= i < 16 ==> s.ring[i] == -1)
    && (forall k: nat :: k < |recent| <= k + 16 ==> s.ring[k % 16] == recent[k])
  }

  lemma RingStep(s: State, t: State, recent: seq<nat>, b: nat)
    requires RingOf(s, recent) && t.ring == s.ring[s.ringIdx := b] && t.ringIdx == (s.ringIdx + 1) % 16 && t.draws == s.draws + 1
    ensures RingOf(t, recent + [b])
  {
    var n := |recent|;
    forall k: nat | k < n + 1 <= k + 16 ensures t.ring[k % 16] == (recent + [b])[k] {
      if k < n {
        assert k % 16 != n % 16;
      }
    }
    forall i: nat | n + 1 <= i < 16 ensures t.ring[i] == -1 {
      assert n % 16 == n;
    }
  }

  /** The pinned buckets are the sixteen latest that were placed by eviction. */
  lemma {:induction false} RingIsRecent(B: Block, rng: nat -> nat, n: nat, s: State, recent: seq<nat>)
    requires Reached(B, rng, n, s, recent)
    ensures RingOf(s, recent)
  {
    hide *;
    if n == 0 {
      RingStarts(B, rng, s, recent);
    } else {
      var p, b, before := LastPlaced(B, rng, n, s, recent);
      RingIsRecent(B, rng, n - 1, p, before);
      RingFollows(B, rng, p, before, s, recent, b);
    }
  }

  lemma RingStarts(B: Block, rng: nat -> nat, s: State, recent: seq<nat>)
    requires Reached(B, rng, 0, s, recent)
    ensures RingOf(s, recent)
  {
  }

  lemma LastPlaced(B: Block, rng: nat -> nat, n: nat, s: State, recent: seq<nat>) returns (p: State, b: nat, before: seq<nat>)
    requires n > 0 && Reached(B, rng, n, s, recent)
    ensures Reached(B, rng, n - 1, p, before) && Follows(B, rng, p, before, s, recent, b)
  {
    hide Follows;
    p, b, before :| Reached(B, rng, n - 1, p, before) && Follows(B, rng, p, before, s, recent, b);
  }

  lemma RingFollows(B: Block, rng: nat -> nat, s: State, recent: seq<nat>, t: State, recent': seq<nat>, b: nat)
    requires Follows(B, rng, s, recent, t, recent', b) && RingOf(s, recent)
    ensures RingOf(t, recent')
  {
    hide PlacedAt, RingOf;
    PlacedRing(B, rng, s, t, b, recent);
    if t.draws == s.draws {
      RingSame(s, t, recent);
    } else {
      RingStep(s, t, recent, b);
    }
  }

  lemma RingSame(s: State, t: State, recent: seq<nat>)
    requires RingOf(s, recent) && t.ring == s.ring && t.ringIdx == s.ringIdx && t.draws == s.draws
    ensures RingOf(t, recent)
  {
  }

  lemma PlacedRing(B: Block, rng: nat -> nat, s: State, t: State, b: nat, recent: seq<nat>)
    requires PlacedAt(B, rng, s, t, b) && RingOf(s, recent)
    ensures if t.draws == s.draws then t.ring == s.ring && t.ringIdx == s.ringIdx
            else |s.ring| == 16 && s.ringIdx < 16 && t.ring == s.ring[s.ringIdx := b] && t.ringIdx == (s.ringIdx + 1) % 16 && t.draws == s.draws + 1
  {
    hide FreePilot, Scan, Evicted, Unowned, Place;
  }

  // ---------- What an outcome says ----------

  // No pilot puts the bucket's keys on distinct slots of no pinned bucket, for less than the
  // largest int.
  ghost predicate NoPilot(B: Block, st: State, b: nat)
    requires b < |B.buckets|
  {
    forall p: nat :: p < 256 && Settles(B, st, b, p) ==> CostAt(B, st, b, p) >= 0x7FFF_FFFF_FFFF_FFFF
  }

  ghost predicate StuckAt(B: Block, st: State, b: nat) { b < |B.buckets| && b !in st.pilots && NoPilot(B, st, b) }

  // A state is reached in which bucket b, with or without keys that no pilot separates, has none.
  ghost predicate Stuck(B: Block, rng: nat -> nat, duplicate: bool) {
    exists st: State, b: nat :: Reachable(B, rng, st) && StuckAt(B, st, b) && HasTwin(B, b) == duplicate
  }

  ghost predicate HasTwin(B: Block, b: nat) {
    b < |B.buckets| && exists i, j :: 0 <= i < j < |B.buckets[b]| && B.buckets[b][i].Input() == B.buckets[b][j].Input()
  }

  lemma TwinIs(B: Block, b: nat)
    requires b < |B.buckets|
    ensures HasTwin(B, b) <==> B.HasDuplicateInput(b)
  {
    var inputs := InputsOf(B.buckets[b]);
    assert forall i :: 0 <= i < |inputs| ==> inputs[i] == B.buckets[b][i].Input();
    if HasTwin(B, b) {
      var i, j :| 0 <= i < j < |B.buckets[b]| && B.buckets[b][i].Input() == B.buckets[b][j].Input();
      assert inputs[i] == inputs[j];
    }
  }

  ghost predicate Exceeds(B: Block, rng: nat -> nat) {
    exists st: State :: Reachable(B, rng, st) && st.evictions > 10 * B.numSlots
  }

  // The outcome is justified by states reached.
  ghost predicate Justified(B: Block, rng: nat -> nat, r: Result<State, Error>) {
    match r
    case Ok(st) => Reachable(B, rng, st)
    case Err(EvictionLimitExceeded) => Exceeds(B, rng)
    case Err(BlockOverflow) => B.numSlots > 0xFFFF
    case Err(DuplicateKey) => Stuck(B, rng, true)
    case Err(IndistinguishableHashes) => Stuck(B, rng, false)
  }

  lemma LimitJustified(B: Block, rng: nat -> nat, st: State)
    requires Reachable(B, rng, st) && st.evictions > 10 * B.numSlots
    ensures Justified(B, rng, Err(EvictionLimitExceeded))
  {
  }

  lemma OkJustified(B: Block, rng: nat -> nat, st: State)
    requires Reachable(B, rng, st)
    ensures Justified(B, rng, Ok(st))
  {
  }

  lemma JustifiedIs(B: Block, rng: nat -> nat, r: Result<State, Error>)
    requires Justified(B, rng, r)
    ensures r.Ok? ==> Reachable(B, rng, r.value)
  {
  }

  // ---------- The Phase-2 scan misses no pilot ----------

  // The d-th pilot of a scan.
  function Nth(start: nat, d: nat): (p: nat)
    ensures p < 256
  {
    (start + d) % 256
  }

  // What a placement on the slots costs: for every slot taken, the square of its owner's size.
  ghost function Cost(B: Block, owner: map<nat, nat>, slots: seq<nat>): nat {
    if |slots| == 0 then 0
    else
      (if slots[0] in owner && owner[slots[0]] < |B.buckets|
       then |B.buckets[owner[slots[0]]]| * |B.buckets[owner[slots[0]]]| else 0)
      + Cost(B, owner, slots[1..])
  }

  lemma {:induction false} CostSplit(B: Block, owner: map<nat, nat>, slots: seq<nat>, s: nat)
    ensures Cost(B, owner, slots + [s]) == Cost(B, owner, slots) + Cost(B, owner, [s])
  {
    if |slots| > 0 {
      assert (slots + [s])[1..] == slots[1..] + [s];
      CostSplit(B, owner, slots[1..], s);
    } else {
      assert slots + [s] == [s];
    }
  }

  lemma {:induction false} ScoreIsCost(B: Block, owner: map<nat, nat>, slots: seq<nat>)
    ensures Score(B, owner, slots) == Cost(B, owner, slots)
  {
    if |slots| > 0 {
      var n := |slots| - 1;
      ScoreIsCost(B, owner, slots[..n]);
      CostSplit(B, owner, slots[..n], slots[n]);
      assert slots[..n] + [slots[n]] == slots;
      assert [slots[n]][1..] == [];
    }
  }

  // Distinct slots, none of them a pinned bucket's.
  ghost predicate Settles(B: Block, st: State, b: nat, p: nat)
    requires b < |B.buckets|
  {
    var slots := B.Slots(b, p);
    NoDup(slots) && !exists s :: s in slots && s in st.owner && st.owner[s] in st.ring
  }

  ghost function CostAt(B: Block, st: State, b: nat, p: nat): nat
    requires b < |B.buckets|
  {
    Cost(B, st.owner, B.Slots(b, p))
  }

  lemma SettlesIs(B: Block, st: State, b: nat, p: nat)
    requires b < |B.buckets|
    ensures Settles(B, st, b, p) <==> Clear(st, B.Slots(b, p))
    ensures Score(B, st.owner, B.Slots(b, p)) == CostAt(B, st, b, p)
  {
    ScoreIsCost(B, st.owner, B.Slots(b, p));
  }

  // The first n pilots of the scan settle nothing cheaper than `score`; those before `d` nothing
  // as cheap.
  ghost predicate Scanned(B: Block, st: State, b: nat, start: nat, n: nat, d: nat, score: nat)
    requires b < |B.buckets|
  {
    && (forall k: nat :: k < n && Settles(B, st, b, Nth(start, k)) ==> CostAt(B, st, b, Nth(start, k)) >= score)
    && (forall k: nat :: k < d && Settles(B, st, b, Nth(start, k)) ==> CostAt(B, st, b, Nth(start, k)) > score)
  }

  // The answer is the d-th pilot, at its cost; or there is none.
  ghost predicate AnswerAt(B: Block, st: State, b: nat, start: nat, d: nat, best: Best)
    requires b < |B.buckets|
  {
    if best.found then best.pilot == Nth(start, d) && Settles(B, st, b, best.pilot) && best.score == CostAt(B, st, b, best.pilot)
    else d == 0 && best.score == 0x7FFF_FFFF_FFFF_FFFF
  }

  // One step of the scan.
  lemma ScanStep(B: Block, st: State, b: nat, start: nat, n: nat, best: Best)
    requires b < |B.buckets| && n < 256
    ensures var p, r := Nth(start, n), Scan(B, st, b, start, n, best);
            if Settles(B, st, b, p) && CostAt(B, st, b, p) < best.score then
              var next := Best(true, p, CostAt(B, st, b, p));
              if next.score <= |B.buckets[b]| * |B.buckets[b]| then r == next else r == Scan(B, st, b, start, n + 1, next)
            else r == Scan(B, st, b, start, n + 1, best)
  {
    SettlesIs(B, st, b, Nth(start, n));
    hide Clear, Score, Cost, Settles, CostAt, Block.Slots;
  }

  lemma ScanEnds(B: Block, st: State, b: nat, start: nat, best: Best)
    requires b < |B.buckets|
    ensures Scan(B, st, b, start, 256, best) == best
  {
  }

  // A cheaper pilot is found, or none.
  lemma Found(B: Block, st: State, b: nat, start: nat, n: nat, d: nat, score: nat)
    requires b < |B.buckets| && Scanned(B, st, b, start, n, d, score) && d <= n
    requires Settles(B, st, b, Nth(start, n)) && CostAt(B, st, b, Nth(start, n)) < score
    ensures Scanned(B, st, b, start, n + 1, n, CostAt(B, st, b, Nth(start, n)))
    ensures Scanned(B, st, b, start, n, n, CostAt(B, st, b, Nth(start, n)))
  {
    hide Settles, CostAt, Nth;
  }

  lemma Passed(B: Block, st: State, b: nat, start: nat, n: nat, d: nat, score: nat)
    requires b < |B.buckets| && Scanned(B, st, b, start, n, d, score) && d <= n
    requires !(Settles(B, st, b, Nth(start, n)) && CostAt(B, st, b, Nth(start, n)) < score)
    ensures Scanned(B, st, b, start, n + 1, d, score)
  {
    hide Settles, CostAt, Nth;
  }

  lemma AnswerIs(B: Block, st: State, b: nat, start: nat, d: nat)
    requires b < |B.buckets| && Settles(B, st, b, Nth(start, d))
    ensures AnswerAt(B, st, b, start, d, Best(true, Nth(start, d), CostAt(B, st, b, Nth(start, d))))
  {
    hide Settles, CostAt, Nth;
  }

  lemma {:induction false} ScanMisses(B: Block, st: State, b: nat, start: nat, n: nat, d: nat, best: Best) returns (e: nat)
    requires b < |B.buckets| && n <= 256 && d <= n
    requires AnswerAt(B, st, b, start, d, best) && Scanned(B, st, b, start, n, d, best.score)
    ensures var r := Scan(B, st, b, start, n, best);
            && e <= 256 && AnswerAt(B, st, b, start, e, r)
            && (Scanned(B, st, b, start, 256, e, r.score)
                || (r.found && r.score <= |B.buckets[b]| * |B.buckets[b]| && Scanned(B, st, b, start, e, e, r.score)))
    decreases 256 - n
  {
    hide *;
    e := d;
    if n == 256 {
      ScanEnds(B, st, b, start, best);
    } else {
      var p := Nth(start, n);
      ScanStep(B, st, b, start, n, best);
      if Settles(B, st, b, p) && CostAt(B, st, b, p) < best.score {
        Found(B, st, b, start, n, d, best.score);
        AnswerIs(B, st, b, start, n);
        var next := Best(true, p, CostAt(B, st, b, p));
        if next.score > |B.buckets[b]| * |B.buckets[b]| {
          e := ScanMisses(B, st, b, start, n + 1, n, next);
        } else {
          e := n;
        }
      } else {
        Passed(B, st, b, start, n, d, best.score);
        e := ScanMisses(B, st, b, start, n + 1, d, best);
      }
    }
  }

  lemma EveryPilotMet(start: nat, p: nat) returns (d: nat)
    requires start < 256 && p < 256
    ensures d < 256 && Nth(start, d) == p
  {
    d := if p >= start then p - start else p + 256 - start;
  }

  /** Phase 2 settles on a pilot that puts the keys on distinct slots of no pinned bucket. No pilot
      met before it in the scan does so as cheaply, and none of the 256 more cheaply unless the
      cost is at most the square of the bucket's size. Without an answer, no pilot does so at all
      for less than the largest int. */
  lemma CheapestPilot(B: Block, st: State, b: nat, start: nat) returns (d: nat)
    requires b < |B.buckets| && start < 256
    ensures var best := BestPilot(B, st, b, start);
            && d <= 256 && AnswerAt(B, st, b, start, d, best)
            && (best.found ==>
                  && (forall k: nat :: k < d && Settles(B, st, b, Nth(start, k)) ==> CostAt(B, st, b, Nth(start, k)) > best.score)
                  && (best.score <= |B.buckets[b]| * |B.buckets[b]|
                      || forall p: nat :: p < 256 && Settles(B, st, b, p) ==> CostAt(B, st, b, p) >= best.score))
            && (!best.found ==> forall p: nat :: p < 256 && Settles(B, st, b, p) ==> CostAt(B, st, b, p) >= 0x7FFF_FFFF_FFFF_FFFF)
  {
    d := ScanMisses(B, st, b, start, 0, 0, Best(false, 0, MAX_INT));
    hide Scan, Settles, CostAt, Nth;
    var best := BestPilot(B, st, b, start);
    forall p: nat | p < 256 && Scanned(B, st, b, start, 256, d, best.score) && Settles(B, st, b, p)
      ensures CostAt(B, st, b, p) >= best.score
    {
      var k := EveryPilotMet(start, p);
    }
  }

  /** Phase 1 settles on the least of the 256 pilots under which all slots are free and distinct. */
  lemma LeastFreePilot(B: Block, owner: map<nat, nat>, b: nat)
    requires b < |B.buckets|
    ensures match FreePilot(B, owner, b, 0)
            case Some(p) => p < 256 && Fits(owner, B.Slots(b, p)) && forall q: nat :: q < p ==> !Fits(owner, B.Slots(b, q))
            case None => forall q: nat :: q < 256 ==> !Fits(owner, B.Slots(b, q))
  {
    hide Fits;
  }

  // ---------- Every outcome is justified ----------

  lemma ProcessJustified(B: Block, rng: nat -> nat, s: State, p: State, b: nat)
    requires Reachable(B, rng, s) && b < |B.buckets| && b !in s.pilots && |B.buckets[b]| > 0
    requires p == s.(pending := s.pending - {b})
    ensures match Process(B, p, b, rng)
            case Ok(t) => Reachable(B, rng, t)
            case Err(e) => Justified(B, rng, Err(e)) && e != EvictionLimitExceeded
  {
    var r := Process(B, p, b, rng);
    if r.Ok? {
      assert PlacedAt(B, rng, s, r.value, b);
      hide Process, PlacedAt, Reachable;
      ReachesOn(B, rng, s, r.value, b);
    } else {
      var start := rng(p.draws) % 256;
      var d := CheapestPilot(B, p, b, start);
      assert NoPilot(B, p, b) by { hide Settles, CostAt, Nth, FreePilot, Scan; }
      SameStuck(B, s, p, b);
      TwinIs(B, b);
      assert StuckAt(B, s, b);
      hide Reachable, NoPilot, HasTwin, FreePilot, Scan;
    }
  }

  // Pending buckets own nothing.
  lemma SameStuck(B: Block, s: State, p: State, b: nat)
    requires b < |B.buckets| && NoPilot(B, p, b) && p.owner == s.owner && p.ring == s.ring
    ensures NoPilot(B, s, b)
  {
    forall q: nat | q < 256 && Settles(B, s, b, q) ensures CostAt(B, s, b, q) >= 0x7FFF_FFFF_FFFF_FFFF {
      assert Settles(B, p, b, q);
    }
  }

  lemma {:induction false} DrainJustified(B: Block, st: State, rng: nat -> nat)
    requires Inv(B, st) && Reachable(B, rng, st)
    ensures Justified(B, rng, Drain(B, st, rng, 10 * B.numSlots))
    decreases Budget(st.evictions, 10 * B.numSlots), |st.pending|
  {
    hide Inv, Justified, Process, Reachable;
    if st.pending == {} {
      OkJustified(B, rng, st);
    } else {
      PendingBounds(B, st);
      var b := Top(Sizes(B), st.pending);
      PendingOpen(B, st, b);
      ProcessJustified(B, rng, st, Popped(st, b), b);
      var r := PlaceTop(B, st, rng);
      if r.Ok? {
        if r.value.evictions <= 10 * B.numSlots {
          DrainJustified(B, r.value, rng);
        } else {
          LimitJustified(B, rng, r.value);
        }
      }
    }
  }

  lemma PendingOpen(B: Block, st: State, b: nat)
    requires Inv(B, st) && b in st.pending
    ensures b < |B.buckets| && b !in st.pilots && |B.buckets[b]| > 0
  {
  }

  // Placing and draining, case by case.
  lemma PlaceIs(B: Block, st: State, b: nat, rng: nat -> nat)
    requires Inv(B, st) && st.pending == {} && Open(B, st, b)
    ensures b < |B.buckets| && b !in st.pilots && |B.buckets[b]| > 0 && st.(pending := st.pending - {b}) == st
    ensures var placed, r := Process(B, st, b, rng), PlaceAndDrain(B, st, b, rng, 10 * B.numSlots);
            && (placed.Err? ==> r == Err(placed.error))
            && (placed.Ok? ==>
                  && Inv(B, placed.value)
                  && var drained := Drain(B, placed.value, rng, 10 * B.numSlots);
                     r == if drained.Ok? && drained.value.evictions > 10 * B.numSlots then Err(EvictionLimitExceeded) else drained)
  {
    ProcessStep(B, st, b, rng);
    hide Inv, Process, Drain, Progress, Visits, SameVisited;
  }

  lemma PlaceJustified(B: Block, st: State, b: nat, rng: nat -> nat)
    requires Inv(B, st) && st.pending == {} && Open(B, st, b) && Reachable(B, rng, st)
    ensures Justified(B, rng, PlaceAndDrain(B, st, b, rng, 10 * B.numSlots))
    ensures var r := PlaceAndDrain(B, st, b, rng, 10 * B.numSlots); r.Ok? ==> r.value.evictions <= 10 * B.numSlots
  {
    hide *;
    PlaceIs(B, st, b, rng);
    ProcessJustified(B, rng, st, st, b);
    var placed := Process(B, st, b, rng);
    if placed.Ok? {
      DrainJustified(B, placed.value, rng);
      var drained := Drain(B, placed.value, rng, 10 * B.numSlots);
      JustifiedIs(B, rng, drained);
      if drained.Ok? && drained.value.evictions > 10 * B.numSlots { LimitJustified(B, rng, drained.value); }
    }
  }

  lemma TurnIs(B: Block, st: State, b: nat, rng: nat -> nat)
    requires Inv(B, st) && st.pending == {} && b < |B.buckets|
    ensures var r := Turn(B, st, b, rng, 10 * B.numSlots);
            if |B.buckets[b]| == 0 then r == Ok(st.(pilots := st.pilots[b := 0]))
            else if b in st.pilots then r == Ok(st)
            else Open(B, st, b) && r == PlaceAndDrain(B, st, b, rng, 10 * B.numSlots)
  {
    hide Inv, PlaceAndDrain;
  }

  lemma TurnJustified(B: Block, st: State, b: nat, rng: nat -> nat)
    requires Inv(B, st) && st.pending == {} && b < |B.buckets| && Reachable(B, rng, st) && st.evictions <= 10 * B.numSlots
    ensures Justified(B, rng, Turn(B, st, b, rng, 10 * B.numSlots))
    ensures var r := Turn(B, st, b, rng, 10 * B.numSlots); r.Ok? ==> r.value.evictions <= 10 * B.numSlots
  {
    hide *;
    TurnIs(B, st, b, rng);
    if |B.buckets[b]| == 0 {
      EmptyJustified(B, rng, st, b);
    } else if b in st.pilots {
      OkJustified(B, rng, st);
    } else {
      PlaceJustified(B, st, b, rng);
    }
  }

  lemma EmptyJustified(B: Block, rng: nat -> nat, st: State, b: nat)
    requires b < |B.buckets| && |B.buckets[b]| == 0 && Reachable(B, rng, st)
    ensures Justified(B, rng, Ok(st.(pilots := st.pilots[b := 0])))
  {
    var t := st.(pilots := st.pilots[b := 0]);
    assert PlacedAt(B, rng, st, t, b);
    hide Reachable, PlacedAt;
    ReachesOn(B, rng, st, t, b);
    OkJustified(B, rng, t);
  }

  lemma FromIs(B: Block, order: seq<nat>, i: nat, st: State, rng: nat -> nat)
    requires Inv(B, st) && st.pending == {}
    requires i < |order| && forall k :: 0 <= k < |order| ==> order[k] < |B.buckets|
    ensures var turn, r := Turn(B, st, order[i], rng, 10 * B.numSlots), SolveFrom(B, order, i, st, rng, 10 * B.numSlots);
            && (turn.Err? ==> r == Err(turn.error))
            && (turn.Ok? ==> Inv(B, turn.value) && turn.value.pending == {} && r == SolveFrom(B, order, i + 1, turn.value, rng, 10 * B.numSlots))
  {
    hide Inv, Turn, Visits;
  }

  lemma {:induction false} FromJustified(B: Block, order: seq<nat>, i: nat, st: State, rng: nat -> nat)
    requires Inv(B, st) && st.pending == {} && Reachable(B, rng, st) && st.evictions <= 10 * B.numSlots
    requires i <= |order| && forall k :: 0 <= k < |order| ==> order[k] < |B.buckets|
    ensures Justified(B, rng, SolveFrom(B, order, i, st, rng, 10 * B.numSlots))
    ensures var r := SolveFrom(B, order, i, st, rng, 10 * B.numSlots); r.Ok? ==> r.value.evictions <= 10 * B.numSlots
    decreases |order| - i
  {
    hide *;
    if i == |order| {
      FromEnds(B, order, st, rng);
      OkJustified(B, rng, st);
    } else {
      FromIs(B, order, i, st, rng);
      TurnJustified(B, st, order[i], rng);
      var r := Turn(B, st, order[i], rng, 10 * B.numSlots);
      JustifiedIs(B, rng, r);
      if r.Err? {
        SameError(B, rng, r, SolveFrom(B, order, i, st, rng, 10 * B.numSlots));
      } else {
        FromJustified(B, order, i + 1, r.value, rng);
      }
    }
  }

  lemma SameError(B: Block, rng: nat -> nat, r: Result<State, Error>, r': Result<State, Error>)
    requires Justified(B, rng, r) && r.Err? && r' == Err(r.error)
    ensures Justified(B, rng, r')
  {
    assert r == r';
  }

  lemma FromEnds(B: Block, order: seq<nat>, st: State, rng: nat -> nat)
    requires Inv(B, st) && st.pending == {} && forall k :: 0 <= k < |order| ==> order[k] < |B.buckets|
    ensures SolveFrom(B, order, |order|, st, rng, 10 * B.numSlots) == Ok(st)
  {
    hide Inv;
  }

  /** What a solve reports is so. The eviction limit: placing buckets has reached a state with more
      than ten evictions a slot, and a solve without an error stays within that. A duplicate or
      indistinguishable keys: it has reached a state in which no pilot is left for some bucket. An
      overflow: exactly with more than 65535 slots. */
  lemma SolveJustified(B: Block, order: seq<nat>, rng: nat -> nat)
    requires forall i :: 0 <= i < |order| ==> order[i] < |B.buckets|
    ensures Justified(B, rng, Solve(B, order, rng))
    ensures var r := Solve(B, order, rng); r.Ok? ==> r.value.evictions <= 10 * B.numSlots
    ensures B.numSlots > 0xFFFF ==> Solve(B, order, rng) == Err(BlockOverflow)
  {
    InitialInv(B);
    StartReachable(B, rng);
    hide Inv, Justified, Reachable, SolveFrom;
    if B.numSlots <= 0xFFFF {
      FromJustified(B, order, 0, INITIAL, rng);
      assert MaxEvictions(B.numSlots) == 10 * B.numSlots;
    } else {
      OverflowJustified(B, rng);
    }
  }

  lemma OverflowJustified(B: Block, rng: nat -> nat)
    requires B.numSlots > 0xFFFF
    ensures Justified(B, rng, Err(BlockOverflow))
  {
  }

  // ---------- Attempts ----------

  // Attempt k is the first, from a on, that does not exceed the limit.
  ghost predicate FirstWithin(B: Block, order: seq<nat>, rngOf: nat -> nat -> nat, a: nat, k: nat)
    requires forall i :: 0 <= i < |order| ==> order[i] < |B.buckets|
  {
    && a <= k < 10 && Solve(B, order, rngOf(k)) != Err(EvictionLimitExceeded)
    && forall i: nat :: a <= i < k ==> Solve(B, order, rngOf(i)) == Err(EvictionLimitExceeded)
  }

  ghost predicate AllExceed(B: Block, order: seq<nat>, rngOf: nat -> nat -> nat, a: nat)
    requires forall i :: 0 <= i < |order| ==> order[i] < |B.buckets|
  {
    forall i: nat :: a <= i < 10 ==> Solve(B, order, rngOf(i)) == Err(EvictionLimitExceeded)
  }

  lemma {:induction false} AttemptsFrom(B: Block, order: seq<nat>, rngOf: nat -> nat -> nat, a: nat) returns (k: nat)
    requires IsOrder(Sizes(B), order) && a <= 10
    ensures forall i :: 0 <= i < |order| ==> order[i] < |B.buckets|
    ensures var r := Attempts(B, order, rngOf, a, 10);
            if r == Err(EvictionLimitExceeded) then AllExceed(B, order, rngOf, a)
            else FirstWithin(B, order, rngOf, a, k) && r == Solve(B, order, rngOf(k))
    decreases 10 - a
  {
    hide *;
    AttemptsStep(B, order, rngOf, a, 10);
    k := a;
    if a == 10 {
      NoneLeft(B, order, rngOf);
    } else if Solve(B, order, rngOf(a)) == Err(EvictionLimitExceeded) {
      k := AttemptsFrom(B, order, rngOf, a + 1);
      OneMore(B, order, rngOf, a, k);
    } else {
      FirstHere(B, order, rngOf, a);
    }
  }

  lemma NoneLeft(B: Block, order: seq<nat>, rngOf: nat -> nat -> nat)
    requires forall i :: 0 <= i < |order| ==> order[i] < |B.buckets|
    ensures AllExceed(B, order, rngOf, 10)
  {
  }

  lemma FirstHere(B: Block, order: seq<nat>, rngOf: nat -> nat -> nat, a: nat)
    requires forall i :: 0 <= i < |order| ==> order[i] < |B.buckets|
    requires a < 10 && Solve(B, order, rngOf(a)) != Err(EvictionLimitExceeded)
    ensures FirstWithin(B, order, rngOf, a, a)
  {
    hide Solve;
  }

  lemma OneMore(B: Block, order: seq<nat>, rngOf: nat -> nat -> nat, a: nat, k: nat)
    requires forall i :: 0 <= i < |order| ==> order[i] < |B.buckets|
    requires a < 10 && Solve(B, order, rngOf(a)) == Err(EvictionLimitExceeded)
    ensures FirstWithin(B, order, rngOf, a + 1, k) ==> FirstWithin(B, order, rngOf, a, k)
    ensures AllExceed(B, order, rngOf, a + 1) ==> AllExceed(B, order, rngOf, a)
  {
    hide Solve;
  }

  /** A block is solved as the first of ten attempts that does not exceed the eviction limit, and
      the limit is reported exactly if all ten exceed it. */
  lemma TenAttempts(B: Block, order: seq<nat>, rngOf: nat -> nat -> nat) returns (k: nat)
    requires IsOrder(Sizes(B), order)
    ensures forall i :: 0 <= i < |order| ==> order[i] < |B.buckets|
    ensures var r := Attempts(B, order, rngOf, 0, MAX_GLOBAL_RETRIES);
            && (r == Err(EvictionLimitExceeded) <==> AllExceed(B, order, rngOf, 0))
            && (r != Err(EvictionLimitExceeded) ==> FirstWithin(B, order, rngOf, 0, k) && r == Solve(B, order, rngOf(k)))
  {
    k := AttemptsFrom(B, order, rngOf, 0);
    hide Attempts, Solve, IsOrder;
  }
}
