/** Exactly which plans let a goroutine be left waiting for a fence. */
module ReadSlotsLeak {
  import opened Basics
  import opened ReadSlots
  import opened ReadSlotsSafety
  import opened ReadSlotsRuns
  import opened ReadSlotsDelivery
  import Encoding

  // The last block with entries.
  ghost predicate LastFull(c: Plan, i: nat) {
    && i < |AllBlocks(c)| && AllBlocks(c)[i].full
    && forall j :: i < j < |AllBlocks(c)| ==> !AllBlocks(c)[j].full
  }

  /** What a caller can check before the finish: enough blocks come before the last one with
      entries for every worker to leave with one, that block and those after it fit into the
      work channel, and no later partition needs its slot. */
  ghost predicate Leaky(c: Plan) {
    exists i: nat :: LastFull(c, i) && LeakAt(c, i)
  }

  ghost predicate LeakAt(c: Plan, i: nat)
    requires i < |AllBlocks(c)|
  {
    && c.workers <= i && |AllBlocks(c)| - i <= c.Capacity()
    && |c.parts| <= AllBlocks(c)[i].part + SLOTS_PER_READER * c.Readers()
  }

  /** The condition in numbers: the work channel takes two blocks a worker, and one, two or three
      readers have two slots each. */
  lemma LeakNumbers(c: Plan, i: nat)
    requires i < |AllBlocks(c)|
    ensures LeakAt(c, i) <==>
              c.workers <= i && |AllBlocks(c)| - i <= 2 * c.workers
              && |c.parts| <= AllBlocks(c)[i].part + (if |c.parts| < 4 then 2 else if |c.parts| < 6 then 4 else 6)
  {
    assert SLOTS_PER_READER * c.Readers() == if |c.parts| < 4 then 2 else if |c.parts| < 6 then 4 else 6;
    hide AllBlocks;
  }

  // A run after which nothing more happens and a goroutine still waits.
  ghost predicate LeavesWaiter(c: Plan, steps: seq<Step>, s: State) {
    Reaches(c, steps, s) && (forall step :: Enabled(c, s, step) ==> External(step)) && s.waiters != multiset{}
  }

  // ---------- Only such plans ----------

  // The reader of partition p has not claimed p's slot again.
  ghost predicate Unclaimed(c: Plan, s: State, p: nat)
    requires Sizes(c, s)
  {
    var r, q := p % c.Readers(), p / c.Readers();
    && s.pool.readers[r].cycle <= q + SLOTS_PER_READER
    && (s.pool.readers[r].cycle == q + SLOTS_PER_READER ==>
          s.pool.readers[r].phase == Waiting || s.pool.readers[r].phase == Gone)
  }

  // While items of a partition are queued, its slot is not claimed again.
  ghost predicate NoneReclaimed(c: Plan, s: State, taken: nat)
    requires Sizes(c, s) && PlaceValid(c, s.main)
  {
    OnCourse(s.main) ==>
      forall j :: taken <= j < |Dispatched(c, s.main)| && Dispatched(c, s.main)[j].full ==> Unclaimed(c, s, Dispatched(c, s.main)[j].part)
  }

  lemma SameSlot(c: Plan, r: nat, q: nat)
    ensures c.SlotOf(r, q + SLOTS_PER_READER) == c.SlotOf(r, q)
  {
  }

  // An item in the queue keeps its slot's fence up, so that its ready channel is empty.
  lemma QueuedSlotTaken(c: Plan, s: State, slot: nat)
    requires Safe(c, s) && slot < c.Slots() && Fenced(slot) in s.workChan
    ensures Sizes(c, s) && s.pool.ready[slot] == 0
  {
    ItemExists(s.workChan, slot);
    assert s.fences[slot] == Outstanding(s, slot);
    assert Tokens(c, s, slot) <= 1;
    hide Plan.Readers, Plan.Slots, HeldCount, ItemCount, Has, Offers;
  }

  lemma QueuedItem(c: Plan, s: State, taken: nat, j: nat)
    requires Queued(c, s, taken) && OnCourse(s.main) && taken <= j < |Dispatched(c, s.main)|
    ensures j - taken < |s.workChan| && s.workChan[j - taken] == ItemFn(c)(Dispatched(c, s.main)[j])
    ensures Dispatched(c, s.main)[j].full ==> Fenced(PartSlot(c, Dispatched(c, s.main)[j].part)) in s.workChan
  {
    var ds := Dispatched(c, s.main);
    assert ds[taken..][j - taken] == ds[j];
    hide Dispatched, PartSlot;
  }

  lemma {:induction false} BeforePartBelow(c: Plan, p: nat, j: nat)
    requires p <= |c.parts| && j < |BeforePart(c, p)|
    ensures BeforePart(c, p)[j].part < p
  {
    if p > 0 && j < |BeforePart(c, p - 1)| {
      BeforePartBelow(c, p - 1, j);
    }
  }

  // A dispatched block's partition is among the plan's.
  lemma DispatchedPart(c: Plan, m: Main, j: nat)
    requires PlaceValid(c, m) && j < |Dispatched(c, m)|
    ensures Dispatched(c, m)[j].part < |c.parts| && Dispatched(c, m)[j].part < m.part + 1
  {
    if j < |BeforePart(c, m.part)| {
      BeforePartBelow(c, m.part, j);
    }
  }

  lemma PartSlotInRange(c: Plan, p: nat)
    requires p < |c.parts|
    ensures PartSlot(c, p) < c.Slots()
  {
    SlotInRange(c, p % c.Readers(), p / c.Readers());
    hide Plan.Slots, Plan.SlotOf, Plan.Readers;
  }

  // How a reader moves on.
  lemma ReaderMoves(c: Plan, s: State, step: Step)
    requires ReaderEnabled(c, s, step) && Sizes(c, s)
    ensures var t, r := DoReader(c, s, step), ReaderOf(step);
            && 0 <= r < c.Readers() && t.pool.readers == s.pool.readers[r := t.pool.readers[r]] && Sizes(c, t)
            && (step.Claim? ==> s.pool.readers[r].phase == Waiting && t.pool.readers[r].cycle == s.pool.readers[r].cycle
                                && SlotNow(c, s, r) < c.Slots() && s.pool.ready[SlotNow(c, s, r)] > 0)
            && (step.Read? ==> s.pool.readers[r].phase == Reading && t.pool.readers[r].cycle == s.pool.readers[r].cycle)
            && (step.Hand? ==> s.pool.readers[r].phase.Offering? && t.pool.readers[r].cycle == s.pool.readers[r].cycle + 1
                               && (t.pool.readers[r].phase == Waiting || t.pool.readers[r].phase == Gone))
            && (!step.Claim? && !step.Read? && !step.Hand? ==>
                  t.pool.readers[r].phase == Gone && t.pool.readers[r].cycle == s.pool.readers[r].cycle)
  {
    hide Plan.Slots, Plan.Readers;
  }

  lemma ReclaimReader(c: Plan, s: State, step: Step, p: nat)
    requires Safe(c, s) && ReaderEnabled(c, s, step) && p < |c.parts| && Sizes(c, s) && Unclaimed(c, s, p)
    requires Fenced(PartSlot(c, p)) in s.workChan
    ensures Sizes(c, DoReader(c, s, step)) && Unclaimed(c, DoReader(c, s, step), p)
  {
    hide *;
    SlotConstant();
    var r, q, t := p % c.Readers(), p / c.Readers(), DoReader(c, s, step);
    ReaderMoves(c, s, step);
    PartSlotInRange(c, p);
    QueuedSlotTaken(c, s, PartSlot(c, p));
    UnclaimedIs(c, s, p);
    UnclaimedIs(c, t, p);
    if s.pool.readers[r].cycle == q + 2 { ClaimedSlot(c, s, r, p); }
  }

  lemma SlotConstant()
    ensures SLOTS_PER_READER == 2
  {
  }

  lemma UnclaimedIs(c: Plan, s: State, p: nat)
    requires Sizes(c, s)
    ensures p % c.Readers() < |s.pool.readers|
    ensures var reader, q := s.pool.readers[p % c.Readers()], p / c.Readers();
            Unclaimed(c, s, p) <==> reader.cycle <= q + 2 && (reader.cycle == q + 2 ==> reader.phase == Waiting || reader.phase == Gone)
  {
    hide Plan.Readers, Plan.Slots;
  }

  lemma ClaimedSlot(c: Plan, s: State, r: nat, p: nat)
    requires r == p % c.Readers() && r < |s.pool.readers| && s.pool.readers[r].cycle == p / c.Readers() + 2
    ensures SlotNow(c, s, r) == PartSlot(c, p)
  {
    SameSlot(c, r, p / c.Readers());
    hide Plan.SlotOf, Plan.Readers;
  }

  lemma NoneReader(c: Plan, s: State, step: Step, taken: nat)
    requires Safe(c, s) && ReaderEnabled(c, s, step) && Queued(c, s, taken) && Sizes(c, s) && NoneReclaimed(c, s, taken)
    ensures Sizes(c, DoReader(c, s, step)) && DoReader(c, s, step).main == s.main && NoneReclaimed(c, DoReader(c, s, step), taken)
  {
    ReaderFrame(c, s, step);
    var t := DoReader(c, s, step);
    if OnCourse(s.main) {
      forall j | taken <= j < |Dispatched(c, s.main)| && Dispatched(c, s.main)[j].full
        ensures Unclaimed(c, t, Dispatched(c, s.main)[j].part)
      {
        hide *;
        QueuedItem(c, s, taken, j);
        DispatchedPart(c, s.main, j);
        NoneAt(c, s, taken, j);
        ReclaimReader(c, s, step, Dispatched(c, s.main)[j].part);
      }
    }
    hide DoReader, ReaderEnabled, Dispatched, Unclaimed, OnCourse;
  }

  lemma NoneAt(c: Plan, s: State, taken: nat, j: nat)
    requires Sizes(c, s) && PlaceValid(c, s.main) && NoneReclaimed(c, s, taken) && OnCourse(s.main)
    requires taken <= j < |Dispatched(c, s.main)| && Dispatched(c, s.main)[j].full
    ensures Unclaimed(c, s, Dispatched(c, s.main)[j].part)
  {
    hide Dispatched, Unclaimed, OnCourse;
  }

  // While the caller holds a partition's slot, its reader has not claimed it again.
  lemma HeldUnclaimed(c: Plan, s: State)
    requires Safe(c, s) && s.main.held.Some? && s.main.held.value == PartSlot(c, s.main.part)
    ensures Sizes(c, s) && Unclaimed(c, s, s.main.part)
  {
    SafeShape2(c, s);
    var p := s.main.part;
    var r, q := p % c.Readers(), p / c.Readers();
    HeldCycle(c, s);
    PartSlotInRange(c, p);
    SlotInRangeOf(c, p);
    SameSlot(c, r, q);
    HeldNotFilled(c, s, r, PartSlot(c, p));
    hide Safe, Plan.Readers, Plan.Slots, Plan.SlotOf, Shape;
  }

  lemma SafeShape2(c: Plan, s: State)
    requires Safe(c, s)
    ensures Shape(c, s) && Sizes(c, s) && c.Valid() && (s.main.held.Some? ==> s.main.part < |c.parts|)
  {
    hide Strides, OneToken, FencesExact, FencedSlotsHeld, Plan.Readers, Plan.Slots;
  }

  lemma SlotInRangeOf(c: Plan, p: nat)
    requires p < |c.parts|
    ensures PartSlot(c, p) / SLOTS_PER_READER == p % c.Readers()
  {
    SlotInRange(c, p % c.Readers(), p / c.Readers());
    hide Plan.Slots, Plan.SlotOf, Plan.Readers;
  }

  // The reader has handed over the partition, and at most one more.
  lemma HeldCycle(c: Plan, s: State)
    requires Safe(c, s) && s.main.held.Some?
    ensures Sizes(c, s)
    ensures s.pool.readers[s.main.part % c.Readers()].cycle <= s.main.part / c.Readers() + 2
  {
    var p := s.main.part;
    var r := p % c.Readers();
    assert InStride(c, s.pool.readers[r], s.pool.offers[r], s.main, r);
    TakenNext(c, p, r);
    assert Taken(c, p, r) == p / c.Readers();
    hide Plan.Readers, Plan.Slots, Plan.SlotOf, PartOf, Taken, FencesExact, FencedSlotsHeld, OneToken, Strides;
  }

  lemma HeldNotFilled(c: Plan, s: State, r: nat, slot: nat)
    requires Safe(c, s) && s.main.held == Some(slot) && slot < c.Slots() && slot / SLOTS_PER_READER == r < c.Readers()
    ensures Sizes(c, s) && !Has(c, s.pool.readers[r], r, slot)
  {
    assert Tokens(c, s, slot) <= 1;
    hide Plan.Readers, Plan.Slots, Plan.SlotOf, Has, Offers, FencesExact, FencedSlotsHeld, OneToken, Strides;
  }

  lemma NoneMain(c: Plan, s: State, step: Step, taken: nat)
    requires Safe(c, s) && MainEnabled(c, s, step) && Queued(c, s, taken) && Sizes(c, s) && NoneReclaimed(c, s, taken)
    ensures Sizes(c, DoMain(c, s, step)) && PlaceValid(c, DoMain(c, s, step).main) && NoneReclaimed(c, DoMain(c, s, step), taken)
  {
    SafeMain(c, s, step);
    MainFrame(c, s, step);
    var t := DoMain(c, s, step);
    ShapePlace(c, t);
    DispatchedBy(c, s, step);
    if OnCourse(t.main) {
      MainItems(c, s, step);
      if step.SendPlain? || step.SendFenced? {
        HeldForSend(c, s, step, taken);
        HeldUnclaimed(c, s);
      }
      var ds, ds' := Dispatched(c, s.main), Dispatched(c, t.main);
      forall j | taken <= j < |ds'| && ds'[j].full ensures Unclaimed(c, t, ds'[j].part) {
        if j < |ds| {
          assert Unclaimed(c, s, ds[j].part);
          SameReaders(c, s, t, ds[j].part);
        } else {
          SameReaders(c, s, t, s.main.part);
        }
        hide DoMain, MainEnabled, Dispatched, Unclaimed, Safe;
      }
    }
    hide DoMain, MainEnabled, Dispatched, Unclaimed, Safe, OnCourse, Queued;
  }

  lemma HeldForSend(c: Plan, s: State, step: Step, taken: nat)
    requires MainEnabled(c, s, step) && Queued(c, s, taken) && (step.SendPlain? || step.SendFenced?)
    ensures s.main.held.Some? && s.main.held.value == PartSlot(c, s.main.part)
  {
    hide Dispatched, PartSlot;
  }

  lemma SameReaders(c: Plan, s: State, t: State, p: nat)
    requires Sizes(c, s) && Sizes(c, t) && t.pool.readers == s.pool.readers
    ensures Unclaimed(c, t, p) <==> Unclaimed(c, s, p)
  {
  }

  // Steps that leave readers and the caller alone.
  lemma NoneSame(c: Plan, s: State, t: State, taken: nat, more: nat)
    requires Sizes(c, s) && PlaceValid(c, s.main) && NoneReclaimed(c, s, taken)
    requires Sizes(c, t) && t.main == s.main && t.pool.readers == s.pool.readers && taken <= more
    ensures NoneReclaimed(c, t, more)
  {
    hide Dispatched;
  }

  lemma NoneKeeps(c: Plan, s: State, step: Step, finished: nat)
    requires Sound(c, s) && Enabled(c, s, step) && Queued(c, s, TakenBy(s, finished))
    requires Sizes(c, s) && PlaceValid(c, s.main) && NoneReclaimed(c, s, TakenBy(s, finished))
    ensures var t := Do(c, s, step);
            Sizes(c, t) && PlaceValid(c, t.main) && NoneReclaimed(c, t, TakenBy(t, finished + One(step.Finish?)))
  {
    SoundKeeps(c, s, step);
    SafeShape(c, Do(c, s, step));
    ShapePlace(c, Do(c, s, step));
    hide Safe, Causes, Queued, ReaderEnabled, MainEnabled, WorkerEnabled, OtherEnabled, DoReader, DoMain, DoWorker, DoOther,
      NoneReclaimed, Total, Shape;
    NotFinish(c, s, step);
    if ReaderEnabled(c, s, step) {
      ReaderFrame(c, s, step);
      NoneReader(c, s, step, TakenBy(s, finished));
    } else if MainEnabled(c, s, step) {
      SafeShape(c, s);
      MainFrame(c, s, step);
      NoneMain(c, s, step, TakenBy(s, finished));
    } else if WorkerEnabled(c, s, step) {
      WorkerFrame(c, s, step);
      EngagedAfter(c, s, step);
      NoneSame(c, s, DoWorker(c, s, step), TakenBy(s, finished), TakenBy(s, finished) + One(step.Take?));
    } else {
      OtherFrame(c, s, step);
      NoneSame(c, s, DoOther(c, s, step), TakenBy(s, finished), TakenBy(s, finished));
    }
  }

  lemma {:induction false} ReachedNone(c: Plan, steps: seq<Step>, s: State)
    requires c.Valid() && Reaches(c, steps, s)
    ensures Sizes(c, s) && PlaceValid(c, s.main) && NoneReclaimed(c, s, TakenBy(s, Finishes(steps)))
  {
    ReachedQueued(c, steps, s);
    SafeShape(c, s);
    ShapePlace(c, s);
    if |steps| == 0 {
      assert Dispatched(c, Init(c).main) == [];
    } else {
      hide Sound, Enabled, Do, Queued, TakenBy, NoneReclaimed, Shape;
      var n := |steps| - 1;
      var before :| Reaches(c, steps[..n], before) && Enabled(c, before, steps[n]) && s == Do(c, before, steps[n]);
      ReachedQueued(c, steps[..n], before);
      ReachedNone(c, steps[..n], before);
      NoneKeeps(c, before, steps[n], Finishes(steps[..n]));
    }
  }

  lemma {:induction false} AllEngaged(ws: seq<Worker>)
    requires forall i :: 0 <= i < |ws| ==> ws[i] == Left(true)
    ensures Total(Engaged, ws) == |ws|
  {
    if |ws| > 0 {
      AllEngaged(ws[1..]);
    }
  }

  // Some block with entries is the last one.
  lemma {:induction false} LastFullExists(c: Plan, i: nat) returns (last: nat)
    requires i < |AllBlocks(c)| && AllBlocks(c)[i].full
    ensures i <= last && LastFull(c, last)
    decreases |AllBlocks(c)| - i
  {
    if j :| i < j < |AllBlocks(c)| && AllBlocks(c)[j].full {
      last := LastFullExists(c, j);
    } else {
      last := i;
    }
  }

  // Every partition has been received, so its slot was claimed again if it was needed.
  lemma EndUnclaimed(c: Plan, s: State, p: nat)
    requires Safe(c, s) && s.main.phase == Done(true) && p < |c.parts| && Sizes(c, s) && Unclaimed(c, s, p)
    ensures |c.parts| <= p + SLOTS_PER_READER * c.Readers()
  {
    var R := c.Readers();
    var r, q := p % R, p / R;
    assert InStride(c, s.pool.readers[r], s.pool.offers[r], s.main, r);
    assert Received(s.main) == |c.parts|;
    if |c.parts| > p + SLOTS_PER_READER * R {
      LaterTaken(c, |c.parts|, p);
    }
    hide Plan.Readers, Plan.Slots, Plan.SlotOf, PartOf, Taken, Strides, OneToken, FencesExact, FencedSlotsHeld;
  }

  // If partition p + 2R is among the first n, its reader has taken three partitions from p on.
  lemma LaterTaken(c: Plan, n: nat, p: nat)
    requires n > p + SLOTS_PER_READER * c.Readers()
    ensures Taken(c, n, p % c.Readers()) >= p / c.Readers() + SLOTS_PER_READER + 1
  {
    var R := c.Readers();
    var r, q := p % R, p / R;
    assert p == q * R + r;
    var k := n - 2 * R - q * R;
    assert n == (q + 2) * R + k && k > r;
    if k < R {
      Div(n, R, q + 2, k);
    } else {
      DivAtLeast(n, R, q + 3);
    }
  }

  lemma Div(n: nat, R: nat, q: nat, k: nat)
    requires R > 0 && n == q * R + k && k < R
    ensures n / R == q && n % R == k
  {
    Encoding.DivUnique(n, R, q, k);
  }

  lemma DivAtLeast(n: nat, R: nat, q: nat)
    requires R > 0 && n >= q * R
    ensures n / R >= q
  {
    assert n == n / R * R + n % R;
    Encoding.MulMonotone(n / R + 1, q, R);
  }

  /** If some run leaves a waiter behind, the plan is one of those. */
  lemma LeakNeeds(c: Plan, steps: seq<Step>, s: State)
    requires c.Valid() && LeavesWaiter(c, steps, s)
    ensures Leaky(c)
  {
    ReachedQueued(c, steps, s);
    ReachedNone(c, steps, s);
    SafeShape(c, s);
    var slot :| slot in s.waiters;
    WaiterInRange(c, s, slot);
    LeftBehind(c, s, slot);
    hide Reaches, Enabled;
    var taken := TakenBy(s, Finishes(steps));
    DrainedBlocks(c, s, taken);
    FullIn(c, s, taken, slot);
    var j :| taken <= j < |AllBlocks(c)| && AllBlocks(c)[j].full;
    var i := LastFullExists(c, j);
    AllLeftFailing(c, s);
    AllEngaged(s.workers);
    NoneAt(c, s, taken, i);
    DispatchedPart(c, s.main, i);
    EndUnclaimed(c, s, AllBlocks(c)[i].part);
    hide Sound, Queued, NoneReclaimed, Total, Ended, LastFull, Sizes, PlaceValid, Plan.Readers, Plan.Slots;
    assert LeakAt(c, i);
  }

  lemma WaiterInRange(c: Plan, s: State, slot: nat)
    requires Sound(c, s) && slot in s.waiters
    ensures slot < c.Slots()
  {
  }

  lemma DrainedBlocks(c: Plan, s: State, taken: nat)
    requires Sound(c, s) && Queued(c, s, taken) && s.main.phase == Done(true)
    ensures OnCourse(s.main) && PlaceValid(c, s.main) && Dispatched(c, s.main) == AllBlocks(c) && taken <= |AllBlocks(c)|
    ensures |s.workChan| == |AllBlocks(c)| - taken <= c.Capacity()
  {
    assert Dispatched(c, s.main) == AllBlocks(c) + [] == AllBlocks(c);
    hide Plan.Readers, Plan.Slots, ItemFn;
  }

  lemma FullIn(c: Plan, s: State, taken: nat, slot: nat)
    requires Queued(c, s, taken) && OnCourse(s.main) && Fenced(slot) in s.workChan && Dispatched(c, s.main) == AllBlocks(c)
    ensures exists j :: taken <= j < |AllBlocks(c)| && AllBlocks(c)[j].full
  {
    var k :| 0 <= k < |s.workChan| && s.workChan[k] == Fenced(slot);
    assert AllBlocks(c)[taken..][k] == AllBlocks(c)[taken + k];
    assert AllBlocks(c)[taken + k].full;
    hide Dispatched, AllBlocks, PartSlot;
  }

  lemma AllLeftFailing(c: Plan, s: State)
    requires Sound(c, s) && Ended(s) && s.workChan != []
    ensures |s.workers| == c.workers && forall i :: 0 <= i < |s.workers| ==> s.workers[i] == Left(true)
  {
    hide Plan.Readers, Plan.Slots, Strides, OneToken, FencesExact, FencedSlotsHeld;
  }
}
