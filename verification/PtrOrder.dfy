/** The PTRHash solver's outcome depends only on which slot inputs each bucket holds: not on
    the order in which keys were added, nor on what is stored with them. */
module PtrOrder {
  import opened Basics
  import opened PtrSpec
  import opened PtrInvariant
  import opened PtrSolve

  // The same slot inputs in every bucket, in whatever order.
  ghost predicate SameKeys(A: Block, B: Block) {
    && A.hash == B.hash
    && A.numSlots == B.numSlots
    && |A.buckets| == |B.buckets|
    && forall b :: 0 <= b < |A.buckets| ==> multiset(InputsOf(A.buckets[b])) == multiset(InputsOf(B.buckets[b]))
  }

  lemma SizesAgree(A: Block, B: Block)
    requires SameKeys(A, B)
    ensures Sizes(A) == Sizes(B)
  {
    forall b | 0 <= b < |A.buckets| ensures Sizes(A)[b] == Sizes(B)[b] {
      PermLength(InputsOf(A.buckets[b]), InputsOf(B.buckets[b]));
    }
  }

  // A key reaches its slots by its input alone.
  lemma SlotsByInput(B: Block, b: nat, p: nat, h: bv64 -> nat)
    requires b < |B.buckets| && forall x :: h(x) == B.hash(x, p, B.numSlots)
    ensures B.Slots(b, p) == Map(h, InputsOf(B.buckets[b]))
  {
    hide SlotInput;
  }

  lemma SlotsAgree(A: Block, B: Block, b: nat, p: nat)
    requires SameKeys(A, B) && b < |A.buckets|
    ensures multiset(A.Slots(b, p)) == multiset(B.Slots(b, p))
  {
    var h := (x: bv64) => A.hash(x, p, A.numSlots);
    SlotsByInput(A, b, p, h);
    SlotsByInput(B, b, p, h);
    MapPerm(h, InputsOf(A.buckets[b]), InputsOf(B.buckets[b]));
  }

  lemma FitsPerm(owner: map<nat, nat>, s: seq<nat>, t: seq<nat>)
    requires multiset(s) == multiset(t)
    ensures Fits(owner, s) == Fits(owner, t)
  {
    NoDupPerm(s, t);
    forall x ensures x in s <==> x in t { SameMembers(s, t, x); }
  }

  lemma ScoreWithout(B: Block, owner: map<nat, nat>, s: seq<nat>, k: nat)
    requires k < |s|
    ensures Score(B, owner, s) == Score(B, owner, Without(s, k)) + Weight(B, owner, s[k])
    decreases |s|
  {
    var n := |s| - 1;
    if k == n {
      assert Without(s, k) == s[..n];
    } else {
      ScoreWithout(B, owner, s[..n], k);
      assert Without(s, k)[..n - 1] == Without(s[..n], k);
    }
  }

  // The eviction cost sums the same terms in another order.
  lemma {:induction false} ScorePerm(A: Block, B: Block, owner: map<nat, nat>, s: seq<nat>, t: seq<nat>)
    requires Sizes(A) == Sizes(B)
    requires multiset(s) == multiset(t)
    ensures Score(A, owner, s) == Score(B, owner, t)
    decreases |s|
  {
    PermLength(s, t);
    if |s| > 0 {
      SameMembers(s, t, s[0]);
      var k :| 0 <= k < |t| && t[k] == s[0];
      ScoreWithout(A, owner, s, 0);
      ScoreWithout(B, owner, t, k);
      WithoutMultiset(s, 0);
      WithoutMultiset(t, k);
      ScorePerm(A, B, owner, Without(s, 0), Without(t, k));
      assert Weight(A, owner, s[0]) == Weight(B, owner, t[k]);
    }
  }

  lemma ClearPerm(st: State, s: seq<nat>, t: seq<nat>)
    requires multiset(s) == multiset(t)
    ensures Clear(st, s) == Clear(st, t)
  {
    NoDupPerm(s, t);
    forall x ensures x in s <==> x in t { SameMembers(s, t, x); }
  }

  lemma {:induction false} FreePilotAgrees(A: Block, B: Block, owner: map<nat, nat>, b: nat, from: nat)
    requires SameKeys(A, B) && b < |A.buckets|
    ensures FreePilot(A, owner, b, from) == FreePilot(B, owner, b, from)
    decreases NUM_PILOT_VALUES - from
  {
    if from < NUM_PILOT_VALUES {
      SlotsAgree(A, B, b, from);
      FitsPerm(owner, A.Slots(b, from), B.Slots(b, from));
      FreePilotAgrees(A, B, owner, b, from + 1);
    }
  }

  lemma {:induction false} ScanAgrees(A: Block, B: Block, st: State, b: nat, start: nat, delta: nat, best: Best)
    requires SameKeys(A, B) && b < |A.buckets|
    ensures Scan(A, st, b, start, delta, best) == Scan(B, st, b, start, delta, best)
    decreases NUM_PILOT_VALUES - delta
  {
    if delta < NUM_PILOT_VALUES {
      var pilot := (start + delta) % NUM_PILOT_VALUES;
      var s, t := A.Slots(b, pilot), B.Slots(b, pilot);
      SlotsAgree(A, B, b, pilot);
      SizesAgree(A, B);
      ScorePerm(A, B, st.owner, s, t);
      ClearPerm(st, s, t);
      hide Clear, Score;
      assert Improves(A, st, s, best) == Improves(B, st, t, best);
      assert A.Size(b) == Sizes(A)[b] == B.Size(b);
      ScanAgrees(A, B, st, b, start, delta + 1, Best(true, pilot, Score(A, st.owner, s)));
      ScanAgrees(A, B, st, b, start, delta + 1, best);
    }
  }

  lemma PlacePerm(owner: map<nat, nat>, s: seq<nat>, t: seq<nat>, b: nat)
    requires multiset(s) == multiset(t)
    ensures Evicted(owner, s) == Evicted(owner, t)
    ensures Place(owner, s, b) == Place(owner, t, b)
  {
    forall x ensures x in s <==> x in t { SameMembers(s, t, x); }
  }

  lemma DisplaceAgrees(A: Block, B: Block, st: State, b: nat, p: nat)
    requires SameKeys(A, B) && b < |A.buckets|
    ensures Displace(A, st, b, p) == Displace(B, st, b, p)
    ensures Place(st.owner, A.Slots(b, p), b) == Place(st.owner, B.Slots(b, p), b)
  {
    var s, t := A.Slots(b, p), B.Slots(b, p);
    SlotsAgree(A, B, b, p);
    PlacePerm(st.owner, s, t, b);
    PlacePerm(Unowned(st.owner, Evicted(st.owner, s)), s, t, b);
    hide Evicted, Unowned, Place;
  }

  // One placement: same pilot, same victims, same error.
  lemma ProcessAgrees(A: Block, B: Block, st: State, b: nat, rng: nat -> nat)
    requires SameKeys(A, B) && b < |A.buckets|
    ensures Process(A, st, b, rng) == Process(B, st, b, rng)
  {
    FreePilotAgrees(A, B, st.owner, b, 0);
    ScanAgrees(A, B, st, b, rng(st.draws) % NUM_PILOT_VALUES, 0, Best(false, 0, MAX_INT));
    NoDupPerm(InputsOf(A.buckets[b]), InputsOf(B.buckets[b]));
    match FreePilot(A, st.owner, b, 0)
    case Some(p) => DisplaceAgrees(A, B, st, b, p);
    case None => DisplaceAgrees(A, B, st, b, BestPilot(A, st, b, rng(st.draws) % NUM_PILOT_VALUES).pilot);
  }

  lemma InvAgrees(A: Block, B: Block, st: State)
    requires SameKeys(A, B) && Inv(A, st)
    ensures Inv(B, st)
  {
    SizesAgree(A, B);
    assert forall b :: 0 <= b < |A.buckets| ==> A.Size(b) == Sizes(A)[b] == Sizes(B)[b] == B.Size(b);
    forall b | b in st.pilots
      ensures NoDup(B.Slots(b, st.pilots[b]))
      ensures SlotSet(A, b, st.pilots[b]) == SlotSet(B, b, st.pilots[b])
    {
      var s, t := A.Slots(b, st.pilots[b]), B.Slots(b, st.pilots[b]);
      SlotsAgree(A, B, b, st.pilots[b]);
      NoDupPerm(s, t);
      forall x ensures x in s <==> x in t { SameMembers(s, t, x); }
    }
    assert Claims(A, st.pilots) == Claims(B, st.pilots);
  }

  lemma {:induction false} DrainAgrees(A: Block, B: Block, st: State, rng: nat -> nat, maxEvictions: nat)
    requires SameKeys(A, B) && Inv(A, st) && Inv(B, st)
    ensures Drain(A, st, rng, maxEvictions) == Drain(B, st, rng, maxEvictions)
    decreases Budget(st.evictions, maxEvictions), |st.pending|
  {
    hide Inv;
    if st.pending != {} {
      var r := PlaceTop(A, st, rng);
      assert r == PlaceTop(B, st, rng) by {
        SizesAgree(A, B);
        PendingBounds(A, st);
        var b := Top(Sizes(A), st.pending);
        ProcessAgrees(A, B, Popped(st, b), b, rng);
        hide Process;
      }
      if r.Ok? && r.value.evictions <= maxEvictions {
        InvAgrees(A, B, r.value);
        DrainAgrees(A, B, r.value, rng, maxEvictions);
      }
    }
  }

  lemma SizeAgrees(A: Block, B: Block, b: nat)
    requires SameKeys(A, B) && b < |A.buckets|
    ensures A.Size(b) == B.Size(b)
  {
    PermLength(InputsOf(A.buckets[b]), InputsOf(B.buckets[b]));
  }

  lemma TurnAgrees(A: Block, B: Block, st: State, b: nat, rng: nat -> nat, maxEvictions: nat)
    requires SameKeys(A, B) && Inv(A, st) && Inv(B, st) && st.pending == {} && b < |A.buckets|
    ensures Turn(A, st, b, rng, maxEvictions) == Turn(B, st, b, rng, maxEvictions)
  {
    hide Inv, Process, Drain, SameKeys, Progress, Visits;
    SizeAgrees(A, B, b);
    ProcessAgrees(A, B, st, b, rng);
    if A.Size(b) > 0 && b !in st.pilots {
      ProcessStep(A, st, b, rng);
      var r := Process(A, st, b, rng);
      if r.Ok? {
        InvAgrees(A, B, r.value);
        DrainAgrees(A, B, r.value, rng, maxEvictions);
      }
    }
  }

  lemma {:induction false} SolveFromAgrees(A: Block, B: Block, order: seq<nat>, i: nat, st: State,
                                           rng: nat -> nat, maxEvictions: nat)
    requires SameKeys(A, B) && Inv(A, st) && Inv(B, st) && st.pending == {}
    requires i <= |order| && forall k :: 0 <= k < |order| ==> order[k] < |A.buckets|
    ensures SolveFrom(A, order, i, st, rng, maxEvictions) == SolveFrom(B, order, i, st, rng, maxEvictions)
    decreases |order| - i
  {
    hide Inv, Turn;
    if i < |order| {
      TurnAgrees(A, B, st, order[i], rng, maxEvictions);
      var r := Turn(A, st, order[i], rng, maxEvictions);
      if r.Ok? {
        InvAgrees(A, B, r.value);
        SolveFromAgrees(A, B, order, i + 1, r.value, rng, maxEvictions);
      }
    }
  }

  lemma OrderHas(sizes: seq<nat>, s: seq<nat>, b: nat)
    requires IsOrder(sizes, s) && b < |sizes|
    ensures b in s
  {
    OrderCovers(sizes, s);
    assert b in Range(|sizes|);
  }

  lemma NextAgrees(sizes: seq<nat>, s: seq<nat>, t: seq<nat>, i: nat)
    requires IsOrder(sizes, s) && IsOrder(sizes, t)
    requires i < |s| && forall j :: 0 <= j < i ==> s[j] == t[j]
    ensures !Ahead(sizes, t[i], s[i])
  {
    OrderHas(sizes, s, t[i]);
    var k :| 0 <= k < |s| && s[k] == t[i];
  }

  // There is only one order, whatever produced it.
  lemma {:induction false} OrderUnique(sizes: seq<nat>, s: seq<nat>, t: seq<nat>, i: nat)
    requires IsOrder(sizes, s) && IsOrder(sizes, t)
    requires i <= |s|
    ensures forall j :: 0 <= j < i ==> s[j] == t[j]
  {
    if i > 0 {
      OrderUnique(sizes, s, t, i - 1);
      NextAgrees(sizes, s, t, i - 1);
      NextAgrees(sizes, t, s, i - 1);
    }
  }

  /** Permuting keys within buckets, and changing what is stored with them, leaves the whole
      solve unchanged: the same pilots and taken slots on success, the same error otherwise. */
  lemma SolveAgrees(A: Block, B: Block, orderA: seq<nat>, orderB: seq<nat>, rng: nat -> nat)
    requires SameKeys(A, B)
    requires IsOrder(Sizes(A), orderA) && IsOrder(Sizes(B), orderB)
    ensures Solve(A, orderA, rng) == Solve(B, orderB, rng)
  {
    SizesAgree(A, B);
    OrderUnique(Sizes(A), orderA, orderB, |orderA|);
    assert orderA == orderB;
    InitialInv(A);
    InitialInv(B);
    hide Inv, SameKeys;
    SolveFromAgrees(A, B, orderA, 0, INITIAL, rng, MaxEvictions(A.numSlots));
  }
}
