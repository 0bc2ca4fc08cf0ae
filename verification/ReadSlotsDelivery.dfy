/** What the workers of the unsorted finish are given: every block once, in order. A finish that
    returns without an error has had every block built. */
module ReadSlotsDelivery {
  import opened Basics
  import opened ReadSlots
  import opened ReadSlotsSafety
  import opened ReadSlotsRuns

  // ---------- Blocks in the order dispatched ----------

  // A block, by its partition, and whether it has entries.
  datatype Dispatch = Dispatch(part: nat, full: bool)

  function PartSlot(c: Plan, p: nat): nat { c.SlotOf(p % c.Readers(), p / c.Readers()) }

  function OfPart(c: Plan, p: nat): (r: seq<Dispatch>)
    requires p < |c.parts|
    ensures |r| == |c.parts[p]|
  {
    seq(|c.parts[p]|, k requires 0 <= k < |c.parts[p]| => Dispatch(p, c.parts[p][k]))
  }

  // The blocks of the first p partitions.
  function BeforePart(c: Plan, p: nat): seq<Dispatch>
    requires p <= |c.parts|
  {
    if p == 0 then [] else BeforePart(c, p - 1) + OfPart(c, p - 1)
  }

  function AllBlocks(c: Plan): seq<Dispatch> { BeforePart(c, |c.parts|) }

  function ItemFn(c: Plan): Dispatch -> Item {
    (d: Dispatch) => if d.full then Fenced(PartSlot(c, d.part)) else Plain
  }

  // The caller has not given up.
  predicate OnCourse(m: Main) {
    m.phase == Receiving || m.phase.Dispatching? || m.phase == Joining || m.phase == Draining || m.phase == Done(true)
  }

  predicate PlaceValid(c: Plan, m: Main) {
    m.part <= |c.parts| && (m.phase.Dispatching? ==> m.part < |c.parts| && m.phase.k <= |c.parts[m.part]|)
  }

  // The blocks dispatched so far.
  function Dispatched(c: Plan, m: Main): seq<Dispatch>
    requires PlaceValid(c, m)
  {
    BeforePart(c, m.part) + if m.phase.Dispatching? then OfPart(c, m.part)[..m.phase.k] else []
  }

  // ---------- Counting what was taken ----------

  function Engaged(w: Worker): nat { One(w != Idle && w != Left(false)) }

  function Finishes(steps: seq<Step>): nat {
    if |steps| == 0 then 0 else Finishes(steps[..|steps| - 1]) + One(steps[|steps| - 1].Finish?)
  }

  // Each item was taken by a worker that still has it, or lost it, or finished it.
  ghost function TakenBy(s: State, finished: nat): nat { finished + Total(Engaged, s.workers) }

  // The queue holds what was dispatched and not taken.
  ghost predicate Queued(c: Plan, s: State, taken: nat) {
    && PlaceValid(c, s.main)
    && (OnCourse(s.main) ==>
          && taken <= |Dispatched(c, s.main)| && s.workChan == Map(ItemFn(c), Dispatched(c, s.main)[taken..])
          && |s.workChan| <= c.Capacity()
          && (s.main.held.Some? ==> s.main.held.value == PartSlot(c, s.main.part)))
  }

  lemma ShapePlace(c: Plan, s: State)
    requires Shape(c, s)
    ensures PlaceValid(c, s.main) && Sizes(c, s) && c.Valid()
  {
    hide Plan.Slots, Plan.Readers, ReadersGone;
  }

  // Where a main step leads.
  lemma DispatchedBy(c: Plan, s: State, step: Step)
    requires Shape(c, s) && MainEnabled(c, s, step) && PlaceValid(c, DoMain(c, s, step).main)
    ensures var t := DoMain(c, s, step);
            && PlaceValid(c, s.main) && (OnCourse(t.main) ==> OnCourse(s.main))
            && (OnCourse(t.main) ==>
                  Dispatched(c, t.main) ==
                  if step.SendPlain? then Dispatched(c, s.main) + [Dispatch(s.main.part, false)]
                  else if step.SendFenced? then Dispatched(c, s.main) + [Dispatch(s.main.part, true)]
                  else Dispatched(c, s.main))
  {
    ShapePlace(c, s);
    var t, m := DoMain(c, s, step), s.main;
    if m.phase.Dispatching? {
      var all := OfPart(c, m.part);
      if step.SendPlain? || step.SendFenced? {
        assert all[..m.phase.k + 1] == all[..m.phase.k] + [all[m.phase.k]];
        assert Dispatched(c, t.main) == Dispatched(c, m) + [all[m.phase.k]];
      } else if step.EndPartition? {
        assert all[..m.phase.k] == all;
        assert BeforePart(c, m.part + 1) + [] == BeforePart(c, m.part + 1);
      } else if step.AddFence? {
        assert Dispatched(c, t.main) == Dispatched(c, m);
      }
    } else if step.Receive? && t.main.phase.Dispatching? {
      assert OfPart(c, m.part)[..0] == [];
    }
    hide Plan.Slots, Plan.Readers, ReadersGone, BeforePart, Shape, ReleaseAll, WorkersLeft;
  }

  // The queue and the slot held, after a main step.
  lemma MainItems(c: Plan, s: State, step: Step)
    requires Shape(c, s) && MainEnabled(c, s, step) && OnCourse(DoMain(c, s, step).main)
    ensures var t := DoMain(c, s, step);
            && t.workers == s.workers
            && (step.SendPlain? ==> t.workChan == s.workChan + [Plain] && |s.workChan| < c.Capacity())
            && (step.SendFenced? ==> s.main.held.Some? && t.workChan == s.workChan + [Fenced(s.main.held.value)]
                                     && |s.workChan| < c.Capacity())
            && (!step.SendPlain? && !step.SendFenced? ==> t.workChan == s.workChan)
            && (t.main.held.Some? && !step.Receive? ==> t.main.held == s.main.held && t.main.part == s.main.part)
            && (step.Receive? ==> t.main.part == s.main.part && s.pool.offers[Turn(c, s)].Some?
                                  && t.main.held == Some(s.pool.offers[Turn(c, s)].value.slot))
  {
    hide Plan.Slots, Plan.Readers, ReadersGone, Plan.Capacity;
  }

  lemma ReceivedSlot(c: Plan, s: State)
    requires Shape(c, s) && Strides(c, s) && MainEnabled(c, s, Receive)
    ensures s.pool.offers[Turn(c, s)].value.slot == PartSlot(c, s.main.part)
  {
    var r := Turn(c, s);
    assert InStride(c, s.pool.readers[r], s.pool.offers[r], s.main, r);
    assert Taken(c, s.main.part, r) == s.main.part / c.Readers();
    hide Plan.Slots, Plan.Readers, Plan.SlotOf, PartOf;
  }

  lemma SuffixGrows(c: Plan, ds: seq<Dispatch>, d: Dispatch, taken: nat)
    requires taken <= |ds|
    ensures Map(ItemFn(c), (ds + [d])[taken..]) == Map(ItemFn(c), ds[taken..]) + [ItemFn(c)(d)]
  {
    assert (ds + [d])[taken..] == ds[taken..] + [d];
    hide ItemFn;
  }

  lemma QueuedMain(c: Plan, s: State, step: Step, taken: nat)
    requires Safe(c, s) && MainEnabled(c, s, step) && Queued(c, s, taken)
    ensures Queued(c, DoMain(c, s, step), taken)
  {
    SafeMain(c, s, step);
    var t := DoMain(c, s, step);
    ShapePlace(c, t);
    DispatchedBy(c, s, step);
    if OnCourse(t.main) {
      MainItems(c, s, step);
      if step.SendPlain? { SuffixGrows(c, Dispatched(c, s.main), Dispatch(s.main.part, false), taken); }
      if step.SendFenced? { SuffixGrows(c, Dispatched(c, s.main), Dispatch(s.main.part, true), taken); }
      if step.Receive? { ReceivedSlot(c, s); }
    }
    hide Safe, DoMain, MainEnabled, Plan.Capacity, PartSlot, Dispatched, PlaceValid, OnCourse;
  }

  lemma EngagedAfter(c: Plan, s: State, step: Step)
    requires WorkerEnabled(c, s, step)
    ensures Total(Engaged, DoWorker(c, s, step).workers) + One(step.Finish?) == Total(Engaged, s.workers) + One(step.Take?)
  {
    WorkerFrame(c, s, step);
    var t, i := DoWorker(c, s, step), WorkerOf(step);
    TotalSet(Engaged, s.workers, i, t.workers[i]);
    hide Total, Fences;
  }

  lemma QueuedWorker(c: Plan, s: State, step: Step, taken: nat)
    requires WorkerEnabled(c, s, step) && Queued(c, s, taken)
    ensures Queued(c, DoWorker(c, s, step), taken + One(step.Take?))
  {
    WorkerFrame(c, s, step);
    if OnCourse(s.main) {
      var ds := Dispatched(c, s.main);
      if step.Take? { assert ds[taken..][1..] == ds[taken + 1..]; }
    }
    hide DoWorker, WorkerEnabled, Dispatched, PartSlot, Plan.Capacity, OnCourse, ItemFn;
  }

  /** In every run: what was dispatched and is not in the queue was taken, in order, each block
      by one worker. */
  lemma TakenInOrder(c: Plan, s: State, step: Step, finished: nat)
    requires Sound(c, s) && Enabled(c, s, step) && Queued(c, s, TakenBy(s, finished))
    ensures var t := Do(c, s, step); Queued(c, t, TakenBy(t, finished + One(step.Finish?)))
  {
    hide Safe, Causes, Queued, ReaderEnabled, MainEnabled, WorkerEnabled, OtherEnabled, DoReader, DoMain, DoWorker, DoOther, Total;
    SafeShape(c, s);
    if ReaderEnabled(c, s, step) {
      ReaderFrame(c, s, step);
      QueuedSame(c, s, DoReader(c, s, step), TakenBy(s, finished));
      NotFinish(c, s, step);
    } else if MainEnabled(c, s, step) {
      MainFrame(c, s, step);
      QueuedMain(c, s, step, TakenBy(s, finished));
      NotFinish(c, s, step);
    } else if WorkerEnabled(c, s, step) {
      QueuedWorker(c, s, step, TakenBy(s, finished));
      EngagedAfter(c, s, step);
    } else {
      OtherFrame(c, s, step);
      QueuedSame(c, s, DoOther(c, s, step), TakenBy(s, finished));
      NotFinish(c, s, step);
    }
  }

  lemma NotFinish(c: Plan, s: State, step: Step)
    ensures ReaderEnabled(c, s, step) || MainEnabled(c, s, step) || OtherEnabled(c, s, step) ==> !step.Finish?
  {
  }

  lemma QueuedSame(c: Plan, s: State, t: State, taken: nat)
    requires Queued(c, s, taken) && t.main == s.main && t.workChan == s.workChan
    ensures Queued(c, t, taken)
  {
  }

  lemma {:induction false} NoneEngaged(ws: seq<Worker>)
    requires forall i :: 0 <= i < |ws| ==> ws[i] == Idle || ws[i] == Left(false)
    ensures Total(Engaged, ws) == 0
  {
    if |ws| > 0 {
      NoneEngaged(ws[1..]);
    }
  }

  lemma InitQueued(c: Plan)
    requires c.Valid()
    ensures Queued(c, Init(c), TakenBy(Init(c), 0))
  {
    NoneEngaged(Init(c).workers);
    assert Dispatched(c, Init(c).main) == [];
    assert Map(ItemFn(c), Dispatched(c, Init(c).main)[0..]) == [];
    hide Total;
  }

  lemma {:induction false} ReachedQueued(c: Plan, steps: seq<Step>, s: State)
    requires c.Valid() && Reaches(c, steps, s)
    ensures Sound(c, s) && Queued(c, s, TakenBy(s, Finishes(steps)))
  {
    ReachedSound(c, steps, s);
    if |steps| == 0 {
      InitQueued(c);
    } else {
      hide Sound, Enabled, Do, Queued, TakenBy;
      var n := |steps| - 1;
      var before :| Reaches(c, steps[..n], before) && Enabled(c, before, steps[n]) && s == Do(c, before, steps[n]);
      ReachedQueued(c, steps[..n], before);
      TakenInOrder(c, before, steps[n], Finishes(steps[..n]));
    }
  }

  // ---------- What a result says ----------

  // A result is there exactly when the call has returned, and no error means a full drain.
  ghost predicate ResultSound(s: State) {
    && (s.main.result.Some? <==> s.main.phase.Done?)
    && (s.main.result == Some(true) ==> s.main.phase == Done(true) && !s.flags.groupFailed && !s.flags.reported)
  }

  lemma ResultMain(c: Plan, s: State, step: Step)
    requires MainEnabled(c, s, step) && ResultSound(s)
    ensures ResultSound(DoMain(c, s, step))
  {
    hide Plan.Readers, Plan.Slots, ReadersGone, ReleaseAll, WorkersLeft, Add, Sub;
  }

  // After the call has returned, only a cancelled parent still changes flags.
  lemma ResultOther(c: Plan, s: State, step: Step)
    requires OtherEnabled(c, s, step) && ResultSound(s)
    ensures ResultSound(DoOther(c, s, step))
  {
  }

  lemma ResultWorker(c: Plan, s: State, step: Step)
    requires Causes(c, s) && WorkerEnabled(c, s, step) && ResultSound(s)
    ensures ResultSound(DoWorker(c, s, step))
  {
    WorkerFrame(c, s, step);
    assert !s.main.phase.Done?;
    hide DoWorker, WorkerEnabled, Causes;
  }

  lemma ResultKeeps(c: Plan, s: State, step: Step)
    requires Sound(c, s) && Enabled(c, s, step) && ResultSound(s)
    ensures ResultSound(Do(c, s, step))
  {
    SafeShape(c, s);
    hide Safe, Causes, ResultSound, ReaderEnabled, MainEnabled, WorkerEnabled, OtherEnabled, DoReader, DoMain, DoWorker, DoOther;
    if ReaderEnabled(c, s, step) {
      ReaderFrame(c, s, step);
      ResultReader(s, DoReader(c, s, step));
    } else if MainEnabled(c, s, step) {
      ResultMain(c, s, step);
    } else if WorkerEnabled(c, s, step) {
      ResultWorker(c, s, step);
    } else {
      ResultOther(c, s, step);
    }
  }

  lemma ResultReader(s: State, t: State)
    requires ResultSound(s) && t.main == s.main && t.flags == s.flags
    ensures ResultSound(t)
  {
  }

  lemma {:induction false} ReachedResult(c: Plan, steps: seq<Step>, s: State)
    requires c.Valid() && Reaches(c, steps, s)
    ensures ResultSound(s)
  {
    if |steps| > 0 {
      hide Enabled, Do, ResultSound;
      var n := |steps| - 1;
      var before :| Reaches(c, steps[..n], before) && Enabled(c, before, steps[n]) && s == Do(c, before, steps[n]);
      ReachedSound(c, steps[..n], before);
      ReachedResult(c, steps[..n], before);
      ResultKeeps(c, before, steps[n]);
    }
  }

  lemma {:induction false} DrainedAll(c: Plan, s: State, taken: nat)
    requires Sound(c, s) && Queued(c, s, taken) && s.main.phase == Done(true) && s.workChan == []
    ensures taken == |AllBlocks(c)|
  {
    assert Dispatched(c, s.main) == AllBlocks(c) + [];
    hide Plan.Readers, Plan.Slots, ItemFn;
  }

  /** A finish that returns without an error has received every partition and had every block,
      empty or not, built and handed on by a worker. */
  lemma NilMeansDelivered(c: Plan, steps: seq<Step>, s: State)
    requires c.Valid() && Reaches(c, steps, s) && s.main.result == Some(true)
    ensures s.main.part == |c.parts| && s.workChan == [] && Finishes(steps) == |AllBlocks(c)|
    ensures forall slot :: 0 <= slot < |s.fences| ==> s.fences[slot] == 0
  {
    ReachedQueued(c, steps, s);
    ReachedResult(c, steps, s);
    hide Reaches, Queued;
    assert forall i :: 0 <= i < |s.workers| ==> s.workers[i] == Left(false);
    assert s.workers[0] == Left(false);
    NoneEngaged(s.workers);
    DrainedAll(c, s, TakenBy(s, Finishes(steps)));
    forall slot: nat | slot < |s.fences| ensures s.fences[slot] == 0 {
      LeftHoldNothing(s.workers, slot);
      assert s.fences[slot] == Outstanding(s, slot);
    }
  }
}
