/** What the unsorted parallel finish returns: nil exactly when nothing went wrong, but for a
    cancellation that came too late to be noticed. */
module ReadSlotsResult {
  import opened Basics
  import opened ReadSlots
  import opened ReadSlotsSafety
  import opened ReadSlotsRuns
  import opened ReadSlotsDelivery

  // ---------- Faults ----------

  // A failure of the outside: a block that cannot be built, a failed write, a failed read, a
  // failed finalization. A cancelled parent may or may not be noticed in time.
  predicate Fault(step: Step) {
    step.Fail? || step == WriterFault || (step.Read? && !step.ok) || step == Conclude(false)
  }

  // A failed read on its way to the caller.
  ghost predicate Spoiled(s: State) {
    || (exists r :: 0 <= r < |s.pool.readers| && s.pool.readers[r].phase == Offering(false))
    || (exists r :: 0 <= r < |s.pool.offers| && s.pool.offers[r].Some? && !s.pool.offers[r].value.ok)
  }

  // Something has gone wrong, and the caller has noticed or will.
  ghost predicate Marred(s: State) {
    s.flags.errorQueued || s.flags.reported || !OnCourse(s.main) || s.main.result == Some(false) || Spoiled(s)
  }

  // Offers are of the plan's partitions.
  ghost predicate OffersInPlan(c: Plan, s: State) {
    forall r :: 0 <= r < |s.pool.offers| && s.pool.offers[r].Some? ==> s.pool.offers[r].value.part < |c.parts|
  }

  lemma OffersReader(c: Plan, s: State, step: Step)
    requires Safe(c, s) && ReaderEnabled(c, s, step) && OffersInPlan(c, s)
    ensures OffersInPlan(c, DoReader(c, s, step))
  {
    ReaderFrame(c, s, step);
    assert InStride(c, s.pool.readers[ReaderOf(step)], s.pool.offers[ReaderOf(step)], s.main, ReaderOf(step));
    hide Safe, Plan.Readers, Plan.Slots, Plan.SlotOf;
  }

  lemma OffersMain(c: Plan, s: State, step: Step)
    requires MainEnabled(c, s, step) && OffersInPlan(c, s)
    ensures OffersInPlan(c, DoMain(c, s, step))
  {
    hide Plan.Readers, Plan.Slots, Plan.SlotOf, ReadersGone, ReleaseAll, WorkersLeft, AtBlock, Add, Sub;
  }

  lemma OffersSame(c: Plan, s: State, t: State)
    requires OffersInPlan(c, s) && t.pool.offers == s.pool.offers
    ensures OffersInPlan(c, t)
  {
  }

  lemma OffersKeep(c: Plan, s: State, step: Step)
    requires Safe(c, s) && Enabled(c, s, step) && OffersInPlan(c, s)
    ensures OffersInPlan(c, Do(c, s, step))
  {
    SafeShape(c, s);
    hide Safe, Shape, OffersInPlan, ReaderEnabled, MainEnabled, WorkerEnabled, OtherEnabled, DoReader, DoMain, DoWorker, DoOther;
    if ReaderEnabled(c, s, step) {
      OffersReader(c, s, step);
    } else if MainEnabled(c, s, step) {
      OffersMain(c, s, step);
    } else if WorkerEnabled(c, s, step) {
      WorkerFrame(c, s, step);
      OffersSame(c, s, DoWorker(c, s, step));
    } else {
      OtherFrame(c, s, step);
      OffersSame(c, s, DoOther(c, s, step));
    }
  }

  lemma MarredReader(c: Plan, s: State, step: Step)
    requires Safe(c, s) && ReaderEnabled(c, s, step) && (Marred(s) || Fault(step))
    ensures Marred(DoReader(c, s, step))
  {
    ReaderFrame(c, s, step);
    var t, i := DoReader(c, s, step), ReaderOf(step);
    assert s.pool.cancelled ==> !OnCourse(s.main);
    if s.flags.errorQueued || s.flags.reported || !OnCourse(s.main) || s.main.result == Some(false) {
      hide ReaderEnabled, DoReader;
    } else if step.Read? && !step.ok {
      assert t.pool.readers[i].phase == Offering(false);
    } else if r :| 0 <= r < |s.pool.readers| && s.pool.readers[r].phase == Offering(false) {
      if r == i {
        assert step == Hand(i) && t.pool.offers[i].Some? && !t.pool.offers[i].value.ok;
      } else {
        assert t.pool.readers[r].phase == Offering(false);
      }
    } else {
      var r :| 0 <= r < |s.pool.offers| && s.pool.offers[r].Some? && !s.pool.offers[r].value.ok;
      assert t.pool.offers[r] == s.pool.offers[r];
    }
  }

  lemma MarredMain(c: Plan, s: State, step: Step)
    requires Shape(c, s) && ResultSound(s) && MainEnabled(c, s, step) && (Marred(s) || Fault(step))
    ensures Marred(DoMain(c, s, step))
  {
    MainFrame(c, s, step);
    var t := DoMain(c, s, step);
    if r :| 0 <= r < |s.pool.offers| && s.pool.offers[r].Some? && !s.pool.offers[r].value.ok {
      assert (step.Receive? && r == Turn(c, s)) || t.pool.offers[r] == s.pool.offers[r];
    }
    if r :| 0 <= r < |s.pool.readers| && s.pool.readers[r].phase == Offering(false) {
      assert t.pool.readers[r].phase == Offering(false);
    }
    hide Plan.Readers, Plan.Slots, ReadersGone, ReleaseAll, WorkersLeft;
  }

  lemma MarredRest(s: State, t: State)
    requires Marred(s) && t.main == s.main && t.pool.readers == s.pool.readers && t.pool.offers == s.pool.offers
    requires (s.flags.errorQueued ==> t.flags.errorQueued) && (s.flags.reported ==> t.flags.reported)
    ensures Marred(t)
  {
  }

  lemma MarredWorker(c: Plan, s: State, step: Step)
    requires WorkerEnabled(c, s, step) && (Marred(s) || Fault(step))
    ensures Marred(DoWorker(c, s, step))
  {
    if step.Fail? {
      assert DoWorker(c, s, step).flags.errorQueued;
    } else {
      WorkerFrame(c, s, step);
      hide Marred, Fences;
      MarredRest(s, DoWorker(c, s, step));
    }
  }

  lemma MarredOther(c: Plan, s: State, step: Step)
    requires OtherEnabled(c, s, step) && (Marred(s) || Fault(step))
    ensures Marred(DoOther(c, s, step))
  {
    if step.WriterFault? {
      assert DoOther(c, s, step).flags.reported;
    } else {
      hide Marred;
      MarredRest(s, DoOther(c, s, step));
    }
  }

  lemma MarredKeeps(c: Plan, s: State, step: Step)
    requires Safe(c, s) && ResultSound(s) && Enabled(c, s, step) && (Marred(s) || Fault(step))
    ensures Marred(Do(c, s, step))
  {
    SafeShape(c, s);
    hide Safe, Shape, ResultSound, Marred, Fault, ReaderEnabled, MainEnabled, WorkerEnabled, OtherEnabled, DoReader, DoMain, DoWorker, DoOther;
    if ReaderEnabled(c, s, step) {
      MarredReader(c, s, step);
    } else if MainEnabled(c, s, step) {
      MarredMain(c, s, step);
    } else if WorkerEnabled(c, s, step) {
      MarredWorker(c, s, step);
    } else {
      MarredOther(c, s, step);
    }
  }

  lemma LastStep(c: Plan, steps: seq<Step>, s: State) returns (before: State)
    requires c.Valid() && Reaches(c, steps, s) && |steps| > 0
    ensures Reaches(c, steps[..|steps| - 1], before) && Enabled(c, before, steps[|steps| - 1]) && s == Do(c, before, steps[|steps| - 1])
    ensures Sound(c, before) && Safe(c, before) && ResultSound(before)
  {
    hide Enabled, Do, Sound, Safe, ResultSound;
    var n := |steps| - 1;
    before :| Reaches(c, steps[..n], before) && Enabled(c, before, steps[n]) && s == Do(c, before, steps[n]);
    ReachedSound(c, steps[..n], before);
    ReachedResult(c, steps[..n], before);
    SoundSafe(c, before);
  }

  lemma NoOffersYet(c: Plan)
    ensures OffersInPlan(c, Init(c))
  {
    hide Plan.Readers, Plan.Slots;
  }

  lemma FirstState(c: Plan, s: State)
    requires Reaches(c, [], s)
    ensures s == Init(c)
  {
  }

  lemma {:induction false} ReachedMarred(c: Plan, steps: seq<Step>, s: State)
    requires c.Valid() && Reaches(c, steps, s)
    ensures OffersInPlan(c, s) && ((exists i :: 0 <= i < |steps| && Fault(steps[i])) ==> Marred(s))
  {
    hide *;
    if steps == [] {
      FirstState(c, s);
      NoOffersYet(c);
    } else {
      var n := |steps| - 1;
      var before := LastStep(c, steps, s);
      ReachedMarred(c, steps[..n], before);
      OffersKeep(c, before, steps[n]);
      if i :| 0 <= i < |steps| && Fault(steps[i]) {
        assert i < n ==> steps[..n][i] == steps[i];
        MarredKeeps(c, before, steps[n]);
      }
    }
  }

  // After a full drain no offer is outstanding.
  lemma NoOfferLeft(c: Plan, s: State, r: nat)
    requires Safe(c, s) && OffersInPlan(c, s) && s.main.phase == Done(true) && r < |s.pool.offers|
    ensures s.pool.offers[r].None?
  {
    assert InStride(c, s.pool.readers[r], s.pool.offers[r], s.main, r);
    PartAfter(c, |c.parts|, r);
    hide Plan.Readers, Plan.Slots, Plan.SlotOf, Taken, PartOf, Strides, OneToken, FencesExact, FencedSlotsHeld;
  }

  /** A finish that returns without an error met no fault: after a block that could not be built,
      a failed read, a failed write or a failed finalization, the error returned is not nil. */
  lemma NilMeansFaultless(c: Plan, steps: seq<Step>, s: State)
    requires c.Valid() && Reaches(c, steps, s) && s.main.result == Some(true)
    ensures forall i :: 0 <= i < |steps| ==> !Fault(steps[i])
  {
    hide *;
    ReachedSound(c, steps, s);
    ReachedResult(c, steps, s);
    ReachedMarred(c, steps, s);
    ReachedHeard(c, steps, s);
    SoundSafe(c, s);
    NotMarred(c, s);
  }

  lemma NotMarred(c: Plan, s: State)
    requires Safe(c, s) && OffersInPlan(c, s) && ResultSound(s) && Heard(s) && s.main.result == Some(true)
    ensures !Marred(s)
  {
    SafeShape(c, s);
    forall r: nat | r < |s.pool.offers| ensures s.pool.offers[r].None? { NoOfferLeft(c, s, r); }
    assert ReadersGone(s.pool);
    hide Safe, Sizes, OffersInPlan;
  }

  // A drain waits until every queued error was reported.
  ghost predicate Heard(s: State) { s.main.phase == Done(true) ==> WriterHeard(s) }

  lemma HeardMain(c: Plan, s: State, step: Step)
    requires MainEnabled(c, s, step) && Heard(s)
    ensures Heard(DoMain(c, s, step))
  {
    hide Plan.Readers, Plan.Slots, ReadersGone, ReleaseAll, WorkersLeft, Add, Sub;
  }

  lemma HeardOther(c: Plan, s: State, step: Step)
    requires OtherEnabled(c, s, step) && Heard(s)
    ensures Heard(DoOther(c, s, step))
  {
  }

  lemma HeardSame(s: State, t: State)
    requires t.main == s.main && t.flags == s.flags && Heard(s)
    ensures Heard(t)
  {
  }

  lemma HeardKeeps(c: Plan, s: State, step: Step)
    requires Sound(c, s) && Enabled(c, s, step) && Heard(s)
    ensures Heard(Do(c, s, step))
  {
    SoundSafe(c, s);
    SafeShape(c, s);
    hide Sound, Safe, Shape, Heard, ReaderEnabled, MainEnabled, WorkerEnabled, OtherEnabled, DoReader, DoMain, DoWorker, DoOther;
    if ReaderEnabled(c, s, step) {
      ReaderFrame(c, s, step);
      HeardSame(s, DoReader(c, s, step));
    } else if MainEnabled(c, s, step) {
      HeardMain(c, s, step);
    } else if WorkerEnabled(c, s, step) {
      WorkerFrame(c, s, step);
      WorkingCaller(c, s, WorkerOf(step));
      HeardBefore(DoWorker(c, s, step));
    } else {
      HeardOther(c, s, step);
    }
  }

  lemma HeardBefore(s: State)
    requires !s.main.phase.Done?
    ensures Heard(s)
  {
  }

  lemma WorkingCaller(c: Plan, s: State, i: nat)
    requires Sound(c, s) && i < |s.workers| && !s.workers[i].Left?
    ensures !s.main.phase.Done?
  {
    hide Safe;
  }

  lemma NotReturned(c: Plan)
    ensures Heard(Init(c))
  {
    hide Plan.Readers, Plan.Slots;
  }

  lemma {:induction false} ReachedHeard(c: Plan, steps: seq<Step>, s: State)
    requires c.Valid() && Reaches(c, steps, s)
    ensures Heard(s)
  {
    hide *;
    if steps == [] {
      FirstState(c, s);
      NotReturned(c);
    } else {
      var before := LastStep(c, steps, s);
      ReachedHeard(c, steps[..|steps| - 1], before);
      HeardKeeps(c, before, steps[|steps| - 1]);
    }
  }

  // ---------- Without faults ----------

  ghost predicate Calm(c: Plan, s: State) {
    && s.flags == Flags(false, false, false, false, false) && !s.pool.cancelled && OnCourse(s.main) && s.main.result != Some(false)
    && (forall i :: 0 <= i < |s.workers| ==> s.workers[i] != Failing && s.workers[i] != Left(true))
    && (forall r :: 0 <= r < |s.pool.readers| ==>
          s.pool.readers[r].phase != Offering(false) && (s.pool.readers[r].phase == Gone ==> s.pool.readers[r].part >= |c.parts|))
    && (forall r :: 0 <= r < |s.pool.offers| ==> s.pool.offers[r].Some? ==> s.pool.offers[r].value.ok)
  }

  lemma CalmReader(c: Plan, s: State, step: Step)
    requires Safe(c, s) && Calm(c, s) && ReaderEnabled(c, s, step) && !Fault(step)
    ensures Calm(c, DoReader(c, s, step))
  {
    ReaderFrame(c, s, step);
    hide Safe, Plan.Readers, Plan.Slots, Plan.SlotOf, OnCourse;
  }

  // The reader whose turn it is has not left.
  lemma TurnStays(c: Plan, s: State)
    requires Safe(c, s) && Calm(c, s) && s.main.phase == Receiving && s.main.part < |c.parts|
    ensures !(Is(s, Turn(c, s), Gone) && s.pool.offers[Turn(c, s)].None?)
  {
    var r := Turn(c, s);
    assert InStride(c, s.pool.readers[r], s.pool.offers[r], s.main, r);
    TurnsPart(c, s.main.part);
    hide Plan.Readers, Plan.Slots, Plan.SlotOf, Taken, PartOf, Strides, OneToken, FencesExact, FencedSlotsHeld;
  }

  lemma CalmMain(c: Plan, s: State, step: Step)
    requires Safe(c, s) && Calm(c, s) && MainEnabled(c, s, step) && !Fault(step)
    ensures Calm(c, DoMain(c, s, step))
  {
    SafeShape(c, s);
    MainFrame(c, s, step);
    if step.Interrupt? && s.main.phase == Receiving { TurnStays(c, s); }
    hide Safe, Shape, Plan.Readers, Plan.Slots, ReadersGone, ReleaseAll, WorkersLeft, AtBlock;
  }

  lemma CalmKeeps(c: Plan, s: State, step: Step)
    requires Sound(c, s) && Calm(c, s) && Enabled(c, s, step) && !Fault(step) && step != CancelParent
    ensures Calm(c, Do(c, s, step))
  {
    SafeShape(c, s);
    if ReaderEnabled(c, s, step) {
      hide *;
      DoIs(c, s, step);
      SoundSafe(c, s);
      CalmReader(c, s, step);
    } else if MainEnabled(c, s, step) {
      hide *;
      DoIs(c, s, step);
      SoundSafe(c, s);
      CalmMain(c, s, step);
    } else if WorkerEnabled(c, s, step) {
      WorkerFrame(c, s, step);
      hide Sound, Safe, Shape, Fences, OtherEnabled, DoReader, DoMain, DoOther;
    } else {
      hide Sound, Safe, Shape, DoReader, DoMain, DoWorker;
    }
  }

  lemma SoundSafe(c: Plan, s: State)
    requires Sound(c, s)
    ensures Safe(c, s)
  {
    hide Safe, Causes;
  }

  lemma DoIs(c: Plan, s: State, step: Step)
    requires Enabled(c, s, step)
    ensures ReaderEnabled(c, s, step) ==> Do(c, s, step) == DoReader(c, s, step)
    ensures !ReaderEnabled(c, s, step) && MainEnabled(c, s, step) ==> Do(c, s, step) == DoMain(c, s, step)
  {
    hide ReaderEnabled, MainEnabled, WorkerEnabled, OtherEnabled, DoReader, DoMain, DoWorker, DoOther;
  }

  lemma CalmStart(c: Plan)
    requires c.Valid()
    ensures Calm(c, Init(c))
  {
    hide Plan.Slots;
  }

  lemma {:induction false} ReachedCalm(c: Plan, steps: seq<Step>, s: State)
    requires c.Valid() && Reaches(c, steps, s) && forall i :: 0 <= i < |steps| ==> !Fault(steps[i]) && steps[i] != CancelParent
    ensures Calm(c, s)
  {
    hide *;
    if steps == [] {
      FirstState(c, s);
      CalmStart(c);
    } else {
      var n := |steps| - 1;
      var before := LastStep(c, steps, s);
      assert forall i :: 0 <= i < n ==> steps[..n][i] == steps[i];
      ReachedCalm(c, steps[..n], before);
      CalmKeeps(c, before, steps[n]);
    }
  }

  /** Without faults and without a cancelled parent, a run that cannot go on has returned without
      an error. */
  lemma FaultlessReturnsNil(c: Plan, steps: seq<Step>, s: State)
    requires c.Valid() && Reaches(c, steps, s) && forall i :: 0 <= i < |steps| ==> !Fault(steps[i]) && steps[i] != CancelParent
    requires forall step :: Enabled(c, s, step) ==> External(step)
    ensures s.main.result == Some(true)
  {
    hide *;
    RunsEnd(c, steps, s);
    ReachedCalm(c, steps, s);
    ReachedResult(c, steps, s);
    CalmReturned(c, s);
  }

  lemma CalmReturned(c: Plan, s: State)
    requires Calm(c, s) && Ended(s) && ResultSound(s)
    ensures s.main.result == Some(true)
  {
    assert s.main.result.Some? && (s.main.result.value || s.main.result == Some(false));
    hide Plan.Readers, Plan.Slots, ReadersGone, WorkersLeft;
  }
}
