/** Whole runs of the slot protocol: they end, nothing gets stuck, and a goroutine waiting
    for a fence is left behind exactly when a failed drain left its slot's items queued. */
module ReadSlotsRuns {
  import opened Basics
  import opened ReadSlots
  import opened ReadSlotsSafety

  // ---------- Why the build is cancelled ----------

  ghost predicate Causes(c: Plan, s: State) {
    && (forall i :: 0 <= i < |s.workers| && s.workers[i] == Left(true) ==> s.flags.groupFailed)
    && (forall i :: 0 <= i < |s.workers| && s.workers[i] == Left(false) ==> WorkClosed(s.main) && s.workChan == [])
    && (forall i :: 0 <= i < |s.workers| && s.workers[i] == Failing ==> s.flags.errorQueued || s.flags.cancelled)
    && (s.flags.groupFailed ==> s.flags.cancelled)
    && (s.flags.cancelled ==> s.flags.parentDone || s.flags.errorQueued || s.flags.reported
                              || s.main.phase == Shutting || s.main.phase == Done(false))
    && (s.main.phase.Done? ==> WorkersLeft(s))
    && (s.main.phase.Dispatching? && s.main.phase.added ==> AtBlock(c, s, true, true))
  }

  lemma CausesReader(c: Plan, s: State, step: Step)
    requires Sizes(c, s) && Causes(c, s) && ReaderEnabled(c, s, step)
    ensures Causes(c, DoReader(c, s, step))
  {
    ReaderFrame(c, s, step);
    hide DoReader, ReaderEnabled, Plan.Readers, Plan.Slots;
  }

  lemma CausesMain(c: Plan, s: State, step: Step)
    requires Shape(c, s) && Causes(c, s) && MainEnabled(c, s, step)
    ensures Causes(c, DoMain(c, s, step))
  {
    MainFrame(c, s, step);
    hide Plan.Readers, Plan.Slots, ReadersGone, ReleaseAll;
  }

  lemma CausesWorker(c: Plan, s: State, step: Step)
    requires Shape(c, s) && Causes(c, s) && WorkerEnabled(c, s, step)
    ensures Causes(c, DoWorker(c, s, step))
  {
    WorkerFrame(c, s, step);
    hide Plan.Readers, Plan.Slots, ReadersGone, Fences;
  }

  lemma CausesOther(c: Plan, s: State, step: Step)
    requires Causes(c, s) && OtherEnabled(c, s, step)
    ensures Causes(c, DoOther(c, s, step))
  {
    hide Plan.Readers, Plan.Slots;
  }

  ghost predicate Sound(c: Plan, s: State) { Safe(c, s) && Causes(c, s) }

  lemma SafeShape(c: Plan, s: State)
    requires Safe(c, s)
    ensures Shape(c, s) && Sizes(c, s)
  {
  }

  lemma SoundKeeps(c: Plan, s: State, step: Step)
    requires Sound(c, s) && Enabled(c, s, step)
    ensures Sound(c, Do(c, s, step))
  {
    SafeKeeps(c, s, step);
    SafeShape(c, s);
    hide Safe, Causes, Shape, ReaderEnabled, MainEnabled, WorkerEnabled, OtherEnabled, DoReader, DoMain, DoWorker, DoOther;
    if ReaderEnabled(c, s, step) {
      CausesReader(c, s, step);
    } else if MainEnabled(c, s, step) {
      CausesMain(c, s, step);
    } else if WorkerEnabled(c, s, step) {
      CausesWorker(c, s, step);
    } else {
      CausesOther(c, s, step);
    }
  }

  // ---------- A measure of the work left ----------

  function Total<T>(f: T -> nat, s: seq<T>): nat {
    if |s| == 0 then 0 else f(s[0]) + Total(f, s[1..])
  }

  lemma {:induction false} TotalSet<T>(f: T -> nat, s: seq<T>, i: nat, x: T)
    requires i < |s|
    ensures Total(f, s[i := x]) + f(s[i]) == Total(f, s) + f(x)
  {
    if i == 0 {
      assert s[0 := x][1..] == s[1..];
    } else {
      TotalSet(f, s[1..], i - 1, x);
      assert s[i := x][1..] == s[1..][i - 1 := x];
    }
  }

  function WorkerWeight(w: Worker): nat {
    match w
    case Idle => 5
    case Holding(_) => 12
    case Busy => 11
    case Failing => 3
    case Left(_) => 0
  }

  function ReaderWeight(c: Plan, reader: Reader): nat {
    if reader.phase == Gone || reader.part >= |c.parts| then 0
    else 6 * (|c.parts| - reader.part) - match reader.phase case Waiting => 0 case Reading => 1 case _ => 2
  }

  function OfferWeight(offer: Option<Offer>): nat { 2 * One(offer.Some?) }

  function Blocks(parts: seq<seq<bool>>): nat {
    if |parts| == 0 then 0 else |parts[0]| + Blocks(parts[1..])
  }

  function MainWeight(c: Plan, m: Main): int
    requires m.part <= |c.parts|
  {
    match m.phase
    case Receiving => 12 * Blocks(c.parts[m.part..]) + 4 * (|c.parts| - m.part) + 4
    case Dispatching(k, added) => 12 * (Blocks(c.parts[m.part..]) - k) + 4 * (|c.parts| - m.part) + 4 - One(added)
    case Joining => 3
    case Failed => 3
    case Draining => 2
    case Shutting => 2
    case Done(_) => 0
  }

  function FlagsWeight(f: Flags): nat { One(!f.parentDone) + One(!f.reported) + One(!f.cancelled) }

  function PoolWeight(c: Plan, p: Pool): nat {
    Total((r: Reader) => ReaderWeight(c, r), p.readers) + Total(OfferWeight, p.offers) + Total((n: nat) => n, p.ready)
  }

  function Measure(c: Plan, s: State): int
    requires s.main.part <= |c.parts|
  {
    PoolWeight(c, s.pool) + 2 * |s.waiters| + MainWeight(c, s.main) + 8 * |s.workChan| + Total(WorkerWeight, s.workers)
    + FlagsWeight(s.flags)
  }

  lemma BlocksFrom(c: Plan, part: nat)
    requires part < |c.parts|
    ensures Blocks(c.parts[part..]) == |c.parts[part]| + Blocks(c.parts[part + 1..])
  {
    assert c.parts[part..][1..] == c.parts[part + 1..];
  }

  lemma ReaderDecreases(c: Plan, s: State, step: Step)
    requires Shape(c, s) && Strides(c, s) && ReaderEnabled(c, s, step)
    ensures Measure(c, DoReader(c, s, step)) < Measure(c, s)
  {
    ReaderFrame(c, s, step);
    var t, r := DoReader(c, s, step), ReaderOf(step);
    assert InStride(c, s.pool.readers[r], s.pool.offers[r], s.main, r);
    TotalSet((r: Reader) => ReaderWeight(c, r), s.pool.readers, r, t.pool.readers[r]);
    TotalSet(OfferWeight, s.pool.offers, r, t.pool.offers[r]);
    if step.Claim? {
      TotalSet((n: nat) => n, s.pool.ready, SlotNow(c, s, r), s.pool.ready[SlotNow(c, s, r)] - 1);
    }
    ReaderTurns(c, s, step);
    hide DoReader, ReaderEnabled, Total, ReaderWeight, OfferWeight, Plan.Readers, Plan.Slots, Shape, MainWeight;
  }

  lemma ReaderTurns(c: Plan, s: State, step: Step)
    requires Shape(c, s) && Strides(c, s) && ReaderEnabled(c, s, step)
    ensures var t, r := DoReader(c, s, step), ReaderOf(step);
            && 0 <= r < c.Readers()
            && (if step.Hand? then ReaderWeight(c, t.pool.readers[r]) + 4 <= ReaderWeight(c, s.pool.readers[r])
                                   && OfferWeight(t.pool.offers[r]) == OfferWeight(s.pool.offers[r]) + 2
                else t.pool.offers[r] == s.pool.offers[r] && ReaderWeight(c, t.pool.readers[r]) < ReaderWeight(c, s.pool.readers[r]))
  {
    ReaderFrame(c, s, step);
    var r := ReaderOf(step);
    assert InStride(c, s.pool.readers[r], s.pool.offers[r], s.main, r);
    assert c.Readers() >= 1;
    hide Plan.Readers, Plan.Slots, Plan.SlotOf, PartOf, Taken, Shape;
  }

  // The caller's own weight falls by what it puts into the channels, and more.
  lemma MainTurns(c: Plan, s: State, step: Step)
    requires Shape(c, s) && Causes(c, s) && MainEnabled(c, s, step)
    ensures var t := DoMain(c, s, step);
            && t.main.part <= |c.parts| && FlagsWeight(t.flags) <= FlagsWeight(s.flags)
            && |t.waiters| <= |s.waiters| + One(step.EndPartition?)
            && |t.workChan| <= |s.workChan| + One(step.SendPlain? || step.SendFenced?)
            && (step.Receive? ==> t.pool.offers == s.pool.offers[Turn(c, s) := None] && s.pool.offers[Turn(c, s)].Some?)
            && MainWeight(c, t.main) + (if step.EndPartition? then 3 else if step.SendPlain? || step.SendFenced? then 9
                                        else if step.Receive? then 0 else 1) <= MainWeight(c, s.main)
  {
    if s.main.part < |c.parts| {
      BlocksFrom(c, s.main.part);
    }
    hide Plan.Readers, Plan.Slots, ReadersGone, ReleaseAll, WorkersLeft, Blocks;
  }

  lemma MainDecreases(c: Plan, s: State, step: Step)
    requires Shape(c, s) && Causes(c, s) && MainEnabled(c, s, step)
    ensures DoMain(c, s, step).main.part <= |c.parts|
    ensures Measure(c, DoMain(c, s, step)) < Measure(c, s)
  {
    MainFrame(c, s, step);
    MainTurns(c, s, step);
    if step.Receive? {
      TotalSet(OfferWeight, s.pool.offers, Turn(c, s), None);
    }
    hide Total, DoMain, MainEnabled, Causes, Shape, Plan.Readers, MainWeight, FlagsWeight;
  }

  lemma WorkerDecreases(c: Plan, s: State, step: Step)
    requires Shape(c, s) && WorkerEnabled(c, s, step)
    ensures Measure(c, DoWorker(c, s, step)) < Measure(c, s)
  {
    WorkerFrame(c, s, step);
    var t, i := DoWorker(c, s, step), WorkerOf(step);
    TotalSet(WorkerWeight, s.workers, i, t.workers[i]);
    hide Total, Plan.Readers, Plan.Slots, ReadersGone, Fences, MainWeight, PoolWeight;
  }

  lemma WakeWeight(s: State, slot: nat)
    requires slot in s.waiters && slot < |s.pool.ready|
    ensures Total((n: nat) => n, Add(s.pool.ready, slot)) == Total((n: nat) => n, s.pool.ready) + 1
    ensures |s.waiters - multiset{slot}| == |s.waiters| - 1
  {
    TotalSet((n: nat) => n, s.pool.ready, slot, s.pool.ready[slot] + 1);
  }

  lemma OtherDecreases(c: Plan, s: State, step: Step)
    requires s.main.part <= |c.parts| && OtherEnabled(c, s, step)
    ensures Measure(c, DoOther(c, s, step)) < Measure(c, s)
  {
    if step.Wake? {
      WakeWeight(s, step.slot);
    }
    hide Total, Plan.Readers, Plan.Slots, MainWeight, Add;
  }

  /** Every step uses up some of the work left. */
  lemma StepDecreases(c: Plan, s: State, step: Step)
    requires Sound(c, s) && Enabled(c, s, step)
    ensures s.main.part <= |c.parts| && Do(c, s, step).main.part <= |c.parts|
    ensures Measure(c, Do(c, s, step)) < Measure(c, s)
  {
    SoundKeeps(c, s, step);
    PartInRange(c, s);
    PartInRange(c, Do(c, s, step));
    hide Causes, Shape, Strides, OneToken, FencesExact, FencedSlotsHeld, ReaderEnabled, MainEnabled, WorkerEnabled, OtherEnabled,
      DoReader, DoMain, DoWorker, DoOther, Measure;
    if ReaderEnabled(c, s, step) {
      ReaderDecreases(c, s, step);
    } else if MainEnabled(c, s, step) {
      MainDecreases(c, s, step);
    } else if WorkerEnabled(c, s, step) {
      WorkerDecreases(c, s, step);
    } else {
      OtherDecreases(c, s, step);
    }
  }

  lemma PartInRange(c: Plan, s: State)
    requires Sound(c, s)
    ensures s.main.part <= |c.parts|
  {
  }

  // ---------- Nothing gets stuck ----------

  // The call has returned and every reader and worker is gone.
  ghost predicate Ended(s: State) {
    s.main.phase.Done? && ReadersGone(s.pool) && WorkersLeft(s)
  }

  // What a worker does next when nothing fails.
  ghost function WorkerStep(s: State, i: nat): Step
    requires i < |s.workers|
  {
    match s.workers[i]
    case Idle => if |s.workChan| > 0 then Take(i) else Leave(i)
    case Holding(_) => Release(i)
    case Busy => Finish(i)
    case _ => Exit(i)
  }

  lemma WorkerCan(c: Plan, s: State, i: nat) returns (step: Step)
    requires i < |s.workers| && !s.workers[i].Left?
    requires s.workers[i] == Idle ==> |s.workChan| > 0 || WorkClosed(s.main)
    ensures WorkerEnabled(c, s, step) && !External(step)
  {
    step := WorkerStep(s, i);
  }

  // With items queued, some worker can step, or all have left after an error.
  lemma QueueMoves(c: Plan, s: State) returns (step: Step)
    requires c.Valid() && Sizes(c, s) && Causes(c, s) && |s.workChan| > 0 && !s.flags.cancelled
    ensures WorkerEnabled(c, s, step) && !External(step)
  {
    assert !s.workers[0].Left?;
    step := WorkerCan(c, s, 0);
  }

  // Work is queued or held, and the caller waits for its slot: a worker can step, or the
  // caller sees the end of the build, or the writer is about to report it.
  lemma OutstandingMoves(c: Plan, s: State, slot: nat) returns (step: Step)
    requires Sound(c, s) && s.main.phase == Receiving && s.main.part < |c.parts|
    requires slot < c.Slots() && s.fences[slot] > 0
    ensures Enabled(c, s, step) && !External(step)
  {
    assert s.fences[slot] == Outstanding(s, slot);
    hide Strides, OneToken, FencesExact, FencedSlotsHeld, Plan.Readers, Plan.Slots, ReaderEnabled;
    if HeldCount(s.workers, slot) > 0 {
      HolderExists(s.workers, slot);
      var i :| 0 <= i < |s.workers| && Holds(s.workers[i], slot);
      step := WorkerCan(c, s, i);
    } else {
      assert |s.workChan| > 0;
      if s.flags.cancelled {
        step := if s.flags.parentDone || s.flags.reported then Interrupt else Report;
      } else {
        step := QueueMoves(c, s);
      }
    }
  }

  // A reader waits for its slot.
  lemma WaitingMoves(c: Plan, s: State, r: nat) returns (step: Step)
    requires Sound(c, s) && s.main.phase == Receiving && s.main.part < |c.parts|
    requires r < c.Readers() && s.pool.readers[r].phase == Waiting && s.pool.offers[r].None?
    ensures Enabled(c, s, step) && !External(step)
  {
    var slot := SlotNow(c, s, r);
    assert InStride(c, s.pool.readers[r], s.pool.offers[r], s.main, r);
    SlotInRange(c, r, s.pool.readers[r].cycle);
    assert !s.pool.cancelled && s.main.held.None?;
    assert Tokens(c, s, slot) == 1;
    if s.pool.ready[slot] > 0 {
      step := Claim(r);
    } else if s.fences[slot] == 0 {
      step := Wake(slot);
    } else {
      hide Safe, Causes, Plan.Readers, Plan.Slots, Tokens, InStride;
      step := OutstandingMoves(c, s, slot);
    }
  }

  lemma ReceivingCan(c: Plan, s: State) returns (step: Step)
    requires Sound(c, s) && s.main.phase == Receiving
    ensures Enabled(c, s, step) && !External(step)
  {
    SafeShape(c, s);
    if s.main.part == |c.parts| {
      return AllParts;
    }
    var r := Turn(c, s);
    if s.pool.offers[r].Some? {
      return Receive;
    }
    hide Sound, Safe, Causes, Plan.Readers, Plan.Slots;
    match s.pool.readers[r].phase {
      case Waiting =>
        step := WaitingMoves(c, s, r);
      case Reading =>
        step := Read(r, true);
      case Offering(_) =>
        step := Hand(r);
      case Gone =>
        step := Interrupt;
    }
  }

  lemma DispatchingCan(c: Plan, s: State) returns (step: Step)
    requires Sound(c, s) && s.main.phase.Dispatching?
    ensures Enabled(c, s, step) && !External(step)
  {
    SafeShape(c, s);
    var part, k := c.parts[s.main.part], s.main.phase.k;
    hide Strides, OneToken, FencesExact, FencedSlotsHeld, Safe, ReaderEnabled, Plan.Readers, Plan.Slots, OtherEnabled;
    if !s.main.phase.added && k == |part| {
      step := EndPartition;
    } else if !s.main.phase.added && part[k] {
      step := AddFence;
    } else if |s.workChan| < c.Capacity() {
      step := if s.main.phase.added then SendFenced else SendPlain;
    } else if s.flags.cancelled {
      step := Refuse;
    } else {
      assert |s.workChan| > 0;
      step := QueueMoves(c, s);
    }
  }

  // All partitions received, the readers are gone.
  lemma {:induction false} StridesOver(c: Plan, s: State, r: nat)
    requires Shape(c, s) && Strides(c, s) && s.main.part == |c.parts| && r < c.Readers()
    ensures s.pool.readers[r].phase == Gone
  {
    var n := |c.parts|;
    assert InStride(c, s.pool.readers[r], s.pool.offers[r], s.main, r);
    PartAfter(c, n, r);
    StrideMonotone(c, r, Taken(c, n, r), s.pool.readers[r].cycle);
    hide Plan.Readers, Plan.Slots, Plan.SlotOf, Taken, PartOf;
  }

  lemma StrideMonotone(c: Plan, r: nat, a: nat, b: nat)
    requires a <= b
    ensures PartOf(c, r, a) <= PartOf(c, r, b)
  {
    assert c.Readers() * a <= c.Readers() * b;
  }

  lemma PartAfter(c: Plan, n: nat, r: nat)
    requires r < c.Readers()
    ensures PartOf(c, r, Taken(c, n, r)) >= n
  {
    var R := c.Readers();
    assert n == (n / R) * R + n % R;
    if r < n % R {
      assert R * (n / R + 1) == R * (n / R) + R;
    }
  }

  lemma ReadersLeave(c: Plan, s: State) returns (step: Step)
    requires Sound(c, s) && s.main.phase == Failed && !ReadersGone(s.pool)
    ensures Enabled(c, s, step) && !External(step)
  {
    SafeShape(c, s);
    var r :| 0 <= r < |s.pool.readers| && s.pool.readers[r].phase != Gone;
    hide Strides, OneToken, FencesExact, FencedSlotsHeld, Safe, Causes, MainEnabled, OtherEnabled, WorkerEnabled, Plan.Readers, Plan.Slots;
    step := if s.pool.readers[r].phase == Reading then Read(r, true) else Quit(r);
  }

  /** Until the call has returned and readers and workers are gone, some goroutine can step. */
  lemma NotStuck(c: Plan, s: State) returns (step: Step)
    requires Sound(c, s) && !Ended(s)
    ensures Enabled(c, s, step) && !External(step)
  {
    SafeShape(c, s);
    match s.main.phase {
      case Receiving =>
        step := ReceivingCan(c, s);
      case Dispatching(_, _) =>
        step := DispatchingCan(c, s);
      case Joining =>
        forall r | 0 <= r < |s.pool.readers| ensures s.pool.readers[r].phase == Gone { StridesOver(c, s, r); }
        step := Join;
      case Failed =>
        if ReadersGone(s.pool) {
          step := Join;
        } else {
          step := ReadersLeave(c, s);
        }
      case Done(_) =>
        assert false;
      case _ =>
        step := ClosingCan(c, s);
    }
  }

  lemma ClosingCan(c: Plan, s: State) returns (step: Step)
    requires s.main.phase == Draining || s.main.phase == Shutting
    ensures Enabled(c, s, step) && !External(step)
  {
    if WorkersLeft(s) {
      step := if s.flags.errorQueued && !s.flags.reported then Report
              else if s.main.phase == Draining then Conclude(true) else Released;
    } else {
      var i :| 0 <= i < |s.workers| && !s.workers[i].Left?;
      step := WorkerCan(c, s, i);
    }
  }

  // ---------- What is left behind ----------

  lemma {:induction false} LeftHoldNothing(ws: seq<Worker>, slot: nat)
    requires forall i :: 0 <= i < |ws| ==> ws[i].Left?
    ensures HeldCount(ws, slot) == 0
  {
    if |ws| > 0 {
      LeftHoldNothing(ws[1..], slot);
    }
  }

  /** When nothing more can happen: a slot's fence is not back at zero, and a goroutine waits
      for it forever, exactly if the workers left an item of the slot queued. That happens only
      if a worker failed while the pipeline was being drained: every other teardown releases
      what is queued. */
  lemma LeftBehind(c: Plan, s: State, slot: nat)
    requires Sound(c, s) && slot < c.Slots()
    requires forall step :: Enabled(c, s, step) ==> External(step)
    ensures Ended(s)
    ensures slot in s.waiters <==> Fenced(slot) in s.workChan
    ensures s.fences[slot] > 0 <==> Fenced(slot) in s.workChan
    ensures s.workChan != [] ==> s.main.phase == Done(true) && s.flags.groupFailed
  {
    if !Ended(s) {
      var step := NotStuck(c, s);
      assert false;
    }
    LeftHoldNothing(s.workers, slot);
    ItemExists(s.workChan, slot);
    assert s.fences[slot] == Outstanding(s, slot);
    assert Tokens(c, s, slot) <= 1;
    if slot in s.waiters && s.fences[slot] == 0 {
      assert Enabled(c, s, Wake(slot));
    }
    assert s.workers[0] == Left(true) || s.workers[0] == Left(false);
  }

  lemma {:induction false} ReachedSound(c: Plan, steps: seq<Step>, s: State)
    requires c.Valid() && Reaches(c, steps, s)
    ensures Sound(c, s) && s.main.part <= |c.parts| && Init(c).main.part <= |c.parts|
    ensures |steps| + Measure(c, s) <= Measure(c, Init(c))
  {
    if |steps| == 0 {
      InitSafe(c);
      hide Safe;
    } else {
      hide Sound, Measure, Enabled, Do;
      var n := |steps| - 1;
      var before :| Reaches(c, steps[..n], before) && Enabled(c, before, steps[n]) && s == Do(c, before, steps[n]);
      ReachedSound(c, steps[..n], before);
      SoundKeeps(c, before, steps[n]);
      StepDecreases(c, before, steps[n]);
    }
  }

  lemma MeasurePositive(c: Plan, s: State)
    requires Sound(c, s)
    ensures s.main.part <= |c.parts| && Measure(c, s) >= 0
  {
    SafeShape(c, s);
    if s.main.part < |c.parts| {
      BlocksFrom(c, s.main.part);
    }
    hide Total, Safe, Blocks, Sizes, Causes, FlagsWeight, Plan.Readers, Plan.Slots;
  }

  /** Every run is finite, keeps the protocol, and can go on until the call has returned and
      readers and workers are gone. */
  lemma RunsEnd(c: Plan, steps: seq<Step>, s: State)
    requires c.Valid() && Reaches(c, steps, s)
    ensures Init(c).main.part <= |c.parts| && |steps| <= Measure(c, Init(c))
    ensures Safe(c, s)
    ensures (forall step :: Enabled(c, s, step) ==> External(step)) ==> Ended(s)
  {
    ReachedSound(c, steps, s);
    MeasurePositive(c, s);
    hide Reaches, Safe, Causes, Measure, Enabled, Ended;
    if !Ended(s) {
      var step := NotStuck(c, s);
      assert Enabled(c, s, step) && !External(step);
    }
  }
}
