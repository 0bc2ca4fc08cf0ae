/** Whole runs of the unsorted parallel finish, with its writer and its bounded channels: they
    end, nothing gets stuck, and a finish without an error has published the index. */
module SlotPipelineRuns {
  import opened Basics
  import IndexWriter
  import R = ReadSlots
  import RS = ReadSlotsSafety
  import RR = ReadSlotsRuns
  import RD = ReadSlotsDelivery
  import RF = ReadSlotsResult
  import RL = ReadSlotsLeak
  import P = Pipeline
  import PC = PipelineControl
  import PT = PipelineContent
  import PR = PipelineResult
  import PN = PipelineRuns
  import opened SlotPipeline
  import opened SlotPipelineLink

  lemma {:induction false} ReachedGood(c: R.Plan, j: P.Job, file: seq<Byte>, steps: seq<Step>, s: State)
    requires Fits(c, j) && Counted(j) && Reaches(c, j, file, steps, s)
    ensures Good(c, j, s)
  {
    hide Good, Enabled, Do, Fits, Counted;
    if |steps| == 0 {
      InitGood(c, j, file);
    } else {
      var n := |steps| - 1;
      var before :| Reaches(c, j, file, steps[..n], before) && Enabled(c, j, before, steps[n]) && s == Do(c, j, before, steps[n]);
      ReachedGood(c, j, file, steps[..n], before);
      GoodKeeps(c, j, before, steps[n]);
    }
  }

  // ---------- The work at hand ----------

  /** A worker that holds a block from a slot: the slot still holds what was read for the block's
      partition, and no reader is about to overwrite it. */
  lemma HeldIsIntact(c: R.Plan, j: P.Job, s: State, i: nat)
    requires Good(c, j, s) && i < |s.slots.workers| && s.slots.workers[i].Holding? && s.slots.workers[i].item.Fenced?
    ensures i < |s.pipe.pool.workers| && s.pipe.pool.workers[i].Holding?
    ensures var slot, b := s.slots.workers[i].item.slot, s.pipe.pool.workers[i].work.block;
            && b < |j.blocks| == |RD.AllBlocks(c)| && |j.blocks[b]| > 0
            && slot < |s.contents| && s.contents[slot] == Some(RD.AllBlocks(c)[b].part)
            && forall r: nat :: r < c.Readers() && r < |s.slots.pool.readers| && s.slots.pool.readers[r].phase == R.Reading ==>
                 R.SlotNow(c, s.slots, r) != slot
  {
    assert WorkerLinked(c, s.contents, s.slots.workers[i], s.pipe.pool.workers[i]);
    var slot := s.slots.workers[i].item.slot;
    hide RS.Safe, RR.Causes, PR.Sound, R.Plan.Readers, R.Plan.Slots, RD.AllBlocks, P.Job.Valid, QueueLinked, Fresh, ErrorsLinked, MainLinked;
    forall r: nat | r < c.Readers() && r < |s.slots.pool.readers| && s.slots.pool.readers[r].phase == R.Reading
      ensures R.SlotNow(c, s.slots, r) != slot
    {
      FillingFree(c, s.slots, r);
    }
  }

  // ---------- Nothing gets stuck ----------

  // The call has returned and all its goroutines are gone.
  ghost predicate Ended(s: State) { RR.Ended(s.slots) && PN.Ended(s.pipe) }

  lemma GoodFacts(c: R.Plan, j: P.Job, s: State)
    requires Good(c, j, s)
    ensures c.Valid() && j.Valid() && |RD.AllBlocks(c)| == |j.blocks| && c.Capacity() == j.Capacity()
    ensures RS.Safe(c, s.slots) && RR.Causes(c, s.slots) && PC.Inv(j, s.pipe) && PR.Sound(j, s.pipe) && Linked(c, s)
  {
    hide RS.Safe, RR.Causes, PC.Inv, Linked, P.Job.Valid, RD.AllBlocks;
    WorkersOpen(j, s.pipe);
  }

  // Building a joint step from its halves.
  lemma CanPipe(c: R.Plan, j: P.Job, s: State, b: P.Step)
    requires P.Enabled(j, s.pipe, b) && OfPipe(j, s, b)
    ensures Enabled(c, j, s, Pipe(b)) && !External(Pipe(b))
  {
    hide P.Enabled, OfPipe;
  }

  lemma CanSlots(c: R.Plan, j: P.Job, s: State, a: R.Step)
    requires R.Enabled(c, s.slots, a) && OfSlots(s, a)
    ensures Enabled(c, j, s, Slots(a)) && !External(Slots(a))
  {
    hide R.Enabled, OfSlots;
  }

  lemma CanBoth(c: R.Plan, j: P.Job, s: State, a: R.Step, b: P.Step)
    requires R.Enabled(c, s.slots, a) && P.Enabled(j, s.pipe, b) && Paired(j, s, a, b) && b != P.CancelParent && !b.Emit?
    ensures Enabled(c, j, s, Both(a, b)) && !External(Both(a, b))
  {
    hide R.Enabled, P.Enabled, Paired;
  }

  // The writer's state, in both machines.
  lemma WriterState(c: R.Plan, j: P.Job, s: State)
    requires Good(c, j, s)
    ensures s.slots.flags.reported == s.pipe.writer.reported && s.slots.flags.cancelled == s.pipe.pool.cancelled
    ensures s.pipe.writer.phase == P.Running ==> !s.pipe.writer.reported && !s.slots.main.phase.Done?
    ensures s.pipe.writer.phase == P.Reported || s.pipe.writer.phase == P.Closing ==> s.pipe.writer.reported
    ensures s.pipe.writer.phase in {P.Closing, P.Closed} && s.pipe.writer.reported ==> s.pipe.pool.cancelled
    ensures s.pipe.writer.phase == P.Closed && !s.pipe.writer.reported ==> s.pipe.results == []
    ensures s.pipe.writer.done ==> s.pipe.writer.reported
    ensures HeadFailed(s.pipe) ==> s.slots.flags.errorQueued
    ensures s.slots.flags.errorQueued && !s.pipe.writer.reported ==> |s.pipe.results| > 0
  {
    GoodFacts(c, j, s);
    assert PC.ErrorKept(s.pipe) && MainLinked(c, s.slots.main, s.pipe.main) && FlagsLinked(s) && ErrorsLinked(s) by {
      hide PC.ErrorKept, MainLinked, FlagsLinked, ErrorsLinked, QueueLinked, WorkersLinked, Fresh, PC.Control, PC.Workers, PC.Poisoned;
    }
    if HeadFailed(s.pipe) { assert s.pipe.results[0].failed; }
    hide Good, Linked, PC.Inv, Sent, RS.Safe, RR.Causes, PR.Sound, P.Job.Valid, RD.AllBlocks;
  }

  lemma EmitUnhurt(j: P.Job, s: P.State)
    requires P.WriterEnabled(j, s, P.Emit(None)) && !s.writer.reported
    ensures !P.Do(j, s, P.Emit(None)).writer.reported
  {
    hide P.Laid;
  }

  lemma WriterPipe(j: P.Job, s: State, b: P.Step)
    requires P.WriterEnabled(j, s.pipe, b) && (b.Emit? ==> !s.pipe.writer.reported)
    requires match b case Receive => !HeadFailed(s.pipe) case Emit(fault) => fault == None
                     case CancelByWriter => s.pipe.pool.cancelled case _ => true
    ensures P.Enabled(j, s.pipe, b) && OfPipe(j, s, b)
  {
    if b.Emit? { EmitUnhurt(j, s.pipe); }
    hide P.Do, P.Laid;
  }

  lemma WriterBoth(c: R.Plan, j: P.Job, s: State, a: R.Step, b: P.Step)
    requires P.WriterEnabled(j, s.pipe, b) && R.OtherEnabled(c, s.slots, a)
    requires (b.Receive? && a == R.Report && HeadFailed(s.pipe)) || (b.CancelByWriter? && a == R.CancelByWriter)
    ensures R.Enabled(c, s.slots, a) && P.Enabled(j, s.pipe, b) && Paired(j, s, a, b)
  {
    hide R.ReaderEnabled, R.MainEnabled, R.WorkerEnabled, P.Laid;
  }

  lemma EmitAnyway(j: P.Job, s: P.State, b: P.Step)
    requires P.WriterEnabled(j, s, b) && b.Emit?
    ensures P.WriterEnabled(j, s, P.Emit(None)) && s.writer.phase == P.Running
  {
    hide P.Laid;
  }

  lemma ReportEnabled(c: R.Plan, s: R.State)
    requires s.flags.errorQueued && !s.flags.reported && !s.main.phase.Done?
    ensures R.OtherEnabled(c, s, R.Report)
  {
  }

  lemma CancelEnabled(c: R.Plan, s: R.State)
    requires s.flags.reported && !s.flags.cancelled
    ensures R.OtherEnabled(c, s, R.CancelByWriter)
  {
  }

  lemma WriterPhase(j: P.Job, s: P.State, b: P.Step)
    requires P.WriterEnabled(j, s, b)
    ensures b.Receive? || b.Emit? || b.WriterLeave? ==> s.writer.phase == P.Running
    ensures b.CancelByWriter? ==> s.writer.phase == P.Reported
    ensures b.Receive? || b.Emit? || b.WriterLeave? || b.CancelByWriter? || b.CloseDone?
  {
    hide P.Laid;
  }

  // Whatever the writer could do, it does without a fault.
  lemma WriterGoes(c: R.Plan, j: P.Job, s: State, b: P.Step) returns (step: Step)
    requires Good(c, j, s) && P.WriterEnabled(j, s.pipe, b)
    ensures Enabled(c, j, s, step) && !External(step)
  {
    hide *;
    WriterState(c, j, s);
    WriterPhase(j, s.pipe, b);
    if b.Receive? && HeadFailed(s.pipe) {
      step := Both(R.Report, b);
      ReportEnabled(c, s.slots);
      WriterBoth(c, j, s, R.Report, b);
      CanBoth(c, j, s, R.Report, b);
    } else if b.CancelByWriter? && !s.pipe.pool.cancelled {
      step := Both(R.CancelByWriter, b);
      CancelEnabled(c, s.slots);
      WriterBoth(c, j, s, R.CancelByWriter, b);
      CanBoth(c, j, s, R.CancelByWriter, b);
    } else {
      var b' := if b.Emit? then P.Emit(None) else b;
      if b.Emit? { EmitAnyway(j, s.pipe, b); }
      step := Pipe(b');
      WriterPipe(j, s, b');
      CanPipe(c, j, s, b');
    }
  }

  // ---------- Workers ----------

  lemma SlotsWorker(c: R.Plan, s: R.State, a: R.Step)
    requires R.WorkerEnabled(c, s, a)
    ensures R.Enabled(c, s, a)
  {
    hide R.WorkerEnabled;
  }

  lemma PipeWorker(j: P.Job, s: P.State, b: P.Step)
    requires P.WorkerEnabled(j, s, b)
    ensures P.Enabled(j, s, b)
  {
    hide P.WorkerEnabled;
  }

  lemma WorkersMeet(c: R.Plan, j: P.Job, s: State, a: R.Step, b: P.Step)
    requires R.WorkerEnabled(c, s.slots, a) && P.WorkerEnabled(j, s.pipe, b)
    requires match b case Take(i) => a == R.Take(i) case Abandon(i) => a == R.GiveUp(i) case SendCancelled(i) => a == R.GiveUp(i)
                     case Send(i) => WorkerAt(s, i).Sending? && a == (if WorkerAt(s, i).message.failed then R.Fail(i) else R.Finish(i))
                     case Exit(i) => a == R.Exit(i) case Leave(i) => a == R.Leave(i) case _ => false
    ensures Enabled(c, j, s, Both(a, b)) && !External(Both(a, b))
  {
    SlotsWorker(c, s.slots, a);
    PipeWorker(j, s.pipe, b);
    assert Paired(j, s, a, b) by { hide P.Enabled, R.Enabled, P.WorkerEnabled, R.WorkerEnabled; }
    hide R.WorkerEnabled, P.WorkerEnabled;
    CanBoth(c, j, s, a, b);
  }

  lemma WorkerInside(c: R.Plan, j: P.Job, s: State, b: P.Step)
    requires P.WorkerEnabled(j, s.pipe, b)
    requires match b case Start(_, ok) => ok case Check(_) => true
                     case Build(i, _) => i < |s.slots.workers| && s.slots.workers[i] == R.Busy case _ => false
    ensures Enabled(c, j, s, Pipe(b)) && !External(Pipe(b))
  {
    PipeWorker(j, s.pipe, b);
    assert OfPipe(j, s, b) by { hide P.Enabled, P.WorkerEnabled; }
    hide P.WorkerEnabled;
    CanPipe(c, j, s, b);
  }

  // Both machines' views of worker i.
  lemma WorkerPair(c: R.Plan, j: P.Job, s: State, i: nat)
    requires Good(c, j, s) && i < |s.slots.workers|
    ensures i < |s.pipe.pool.workers| == |s.slots.workers|
    ensures WorkerLinked(c, s.contents, s.slots.workers[i], s.pipe.pool.workers[i])
    ensures s.slots.workers[i] == R.Idle ==> !Cleared(s)
    ensures !Cleared(s) ==> |s.slots.workChan| == |s.pipe.workChan|
    ensures s.pipe.pool.workers[i].Holding? ==> P.TornFits(j, s.pipe.pool.workers[i].work.block, None)
    ensures s.pipe.pool.cancelled == s.slots.flags.cancelled
    ensures !s.slots.workers[i].Left? ==> (R.WorkClosed(s.slots.main) <==> P.WorkClosed(s.pipe.main))
  {
    GoodFacts(c, j, s);
    hide Good, RS.Safe, P.Job.Valid, RD.AllBlocks, ItemOf, Fresh, ErrorsLinked, Sent;
    assert WorkerLinked(c, s.contents, s.slots.workers[i], s.pipe.pool.workers[i]);
    PN.HeldIsBlock(j, s.pipe, i);
    hide PR.Sound, P.TornFits;
    if s.slots.workers[i] == R.Idle {
      WorkersOpen(j, s.pipe);
      NotCleared(c, j, s, i);
    }
    hide RR.Causes, PC.Inv;
  }

  lemma SendMeets(c: R.Plan, j: P.Job, s: State, i: nat)
    requires i < |s.slots.workers| && i < |s.pipe.pool.workers|
    requires s.slots.workers[i] == R.Busy && s.pipe.pool.workers[i].Sending? && |s.pipe.results| < j.Capacity()
    ensures var a := if s.pipe.pool.workers[i].message.failed then R.Fail(i) else R.Finish(i);
            Enabled(c, j, s, Both(a, P.Send(i))) && !External(Both(a, P.Send(i)))
  {
    var a := if s.pipe.pool.workers[i].message.failed then R.Fail(i) else R.Finish(i);
    assert R.WorkerEnabled(c, s.slots, a) && P.WorkerEnabled(j, s.pipe, P.Send(i));
    hide R.WorkerEnabled, P.WorkerEnabled, Enabled, External;
    WorkersMeet(c, j, s, a, P.Send(i));
  }

  lemma DropMeets(c: R.Plan, j: P.Job, s: State, i: nat)
    requires i < |s.slots.workers| && i < |s.pipe.pool.workers|
    requires s.slots.workers[i] == R.Busy && s.pipe.pool.workers[i].Sending? && s.pipe.pool.cancelled && s.slots.flags.cancelled
    ensures Enabled(c, j, s, Both(R.GiveUp(i), P.SendCancelled(i))) && !External(Both(R.GiveUp(i), P.SendCancelled(i)))
  {
    assert R.WorkerEnabled(c, s.slots, R.GiveUp(i)) && P.WorkerEnabled(j, s.pipe, P.SendCancelled(i));
    hide R.WorkerEnabled, P.WorkerEnabled, Enabled, External;
    WorkersMeet(c, j, s, R.GiveUp(i), P.SendCancelled(i));
  }

  // A message that finds the channel full moves the writer, or is dropped.
  lemma SendingGoes(c: R.Plan, j: P.Job, s: State, i: nat) returns (step: Step)
    requires Good(c, j, s) && i < |s.slots.workers| && i < |s.pipe.pool.workers|
    requires s.slots.workers[i] == R.Busy && s.pipe.pool.workers[i].Sending?
    ensures Enabled(c, j, s, step) && !External(step)
  {
    hide *;
    WriterState(c, j, s);
    GoodFacts(c, j, s);
    if |s.pipe.results| < j.Capacity() {
      SendMeets(c, j, s, i);
      step := Both(if s.pipe.pool.workers[i].message.failed then R.Fail(i) else R.Finish(i), P.Send(i));
    } else if s.pipe.pool.cancelled {
      DropMeets(c, j, s, i);
      step := Both(R.GiveUp(i), P.SendCancelled(i));
    } else {
      PN.WriterOpen(j, s.pipe);
      PN.WriterCan(j, s.pipe);
      step := WriterGoes(c, j, s, PN.WriterStep(s.pipe));
    }
  }

  lemma IdleGoes(c: R.Plan, j: P.Job, s: State, i: nat) returns (step: Step)
    requires i < |s.slots.workers| && i < |s.pipe.pool.workers| && s.slots.workers[i] == R.Idle
    requires s.pipe.pool.workers[i] == P.Starting || s.pipe.pool.workers[i] == P.Ready
    requires |s.slots.workChan| == |s.pipe.workChan| && (R.WorkClosed(s.slots.main) <==> P.WorkClosed(s.pipe.main))
    requires s.slots.workChan != [] || R.WorkClosed(s.slots.main) || s.pipe.pool.workers[i] == P.Starting
    ensures Enabled(c, j, s, step) && !External(step)
  {
    hide Enabled, External, R.WorkClosed, P.WorkClosed;
    if s.pipe.pool.workers[i] == P.Starting {
      step := Pipe(P.Start(i, true));
      WorkerInside(c, j, s, P.Start(i, true));
    } else if |s.slots.workChan| > 0 {
      step := Both(R.Take(i), P.Take(i));
      WorkersMeet(c, j, s, R.Take(i), P.Take(i));
    } else {
      step := Both(R.Leave(i), P.Leave(i));
      WorkersMeet(c, j, s, R.Leave(i), P.Leave(i));
    }
  }

  lemma BusyGoes(c: R.Plan, j: P.Job, s: State, i: nat) returns (step: Step)
    requires i < |s.slots.workers| && i < |s.pipe.pool.workers|
    requires (s.slots.workers[i] == R.Busy && IsChecked(s.pipe.pool.workers[i])
              && P.TornFits(j, s.pipe.pool.workers[i].work.block, None))
             || (s.slots.workers[i] == R.Failing && s.pipe.pool.workers[i] == P.Failing)
    ensures Enabled(c, j, s, step) && !External(step)
  {
    hide Enabled, External, P.TornFits;
    if s.slots.workers[i] == R.Busy {
      step := Pipe(P.Step.Build(i, None));
      WorkerInside(c, j, s, P.Step.Build(i, None));
    } else {
      step := Both(R.Exit(i), P.Exit(i));
      WorkersMeet(c, j, s, R.Exit(i), P.Exit(i));
    }
  }

  lemma LinkIs(c: R.Plan, contents: seq<Option<nat>>, a: R.Worker, b: P.Worker)
    requires WorkerLinked(c, contents, a, b)
    ensures a == R.Idle ==> b == P.Starting || b == P.Ready
    ensures a.Holding? ==> b.Holding?
    ensures a == R.Busy ==> IsChecked(b) || b.Sending?
    ensures IsChecked(b) ==> b.Holding?
    ensures a == R.Failing ==> b == P.Failing
    ensures a.Left? ==> b == P.Exited(a.failed)
  {
    hide ItemOf;
  }

  // The pair of steps, or the inner step, of a worker that has one.
  lemma WorkerGoes(c: R.Plan, j: P.Job, s: State, i: nat) returns (step: Step)
    requires Good(c, j, s) && i < |s.slots.workers| && !s.slots.workers[i].Left?
    requires s.slots.workers[i] == R.Idle ==> s.slots.workChan != [] || R.WorkClosed(s.slots.main)
                                              || (i < |s.pipe.pool.workers| && s.pipe.pool.workers[i] == P.Starting)
    ensures Enabled(c, j, s, step) && !External(step)
  {
    hide *;
    WorkerPair(c, j, s, i);
    LinkIs(c, s.contents, s.slots.workers[i], s.pipe.pool.workers[i]);
    var w := s.slots.workers[i];
    if w == R.Idle {
      step := IdleGoes(c, j, s, i);
    } else if w.Holding? {
      step := HoldingGoes(c, j, s, i);
    } else if w == R.Busy && s.pipe.pool.workers[i].Sending? {
      step := SendingGoes(c, j, s, i);
    } else {
      step := BusyGoes(c, j, s, i);
    }
  }

  lemma HoldingGoes(c: R.Plan, j: P.Job, s: State, i: nat) returns (step: Step)
    requires i < |s.slots.workers| && s.slots.workers[i].Holding? && i < |s.pipe.pool.workers| && s.pipe.pool.workers[i].Holding?
    requires s.slots.flags.cancelled == s.pipe.pool.cancelled
    ensures Enabled(c, j, s, step) && !External(step)
  {
    if s.pipe.pool.workers[i].checked {
      step := Slots(R.Release(i));
      assert R.WorkerEnabled(c, s.slots, R.Release(i));
      SlotsWorker(c, s.slots, R.Release(i));
      hide R.Enabled;
      CanSlots(c, j, s, R.Release(i));
    } else if s.pipe.pool.cancelled {
      step := Both(R.GiveUp(i), P.Abandon(i));
      hide Enabled, External;
      WorkersMeet(c, j, s, R.GiveUp(i), P.Abandon(i));
    } else {
      step := Pipe(P.Check(i));
      hide Enabled, External;
      WorkerInside(c, j, s, P.Check(i));
    }
  }

  // ---------- The caller ----------

  lemma MainMeets(c: R.Plan, j: P.Job, s: State, a: R.Step, b: P.Step)
    requires R.MainEnabled(c, s.slots, a) && P.MainEnabled(j, s.pipe, b)
    requires match b case Dispatch => a == R.SendPlain || a == R.SendFenced
                     case CloseWork => a == R.Join && s.slots.main.phase == R.Joining
                     case Abort(_) => a == R.Join && s.slots.main.phase == R.Failed
                     case Conclude(io) => a == R.Released || a == R.Conclude(io && P.InSize(j, s.pipe.writer.iw))
                     case _ => false
    ensures Enabled(c, j, s, Both(a, b)) && !External(Both(a, b))
  {
    assert R.Enabled(c, s.slots, a) && P.Enabled(j, s.pipe, b) by { hide R.MainEnabled, P.MainEnabled; }
    assert Paired(j, s, a, b) by { hide P.Enabled, R.Enabled, P.MainEnabled, R.MainEnabled, P.InSize; }
    hide R.MainEnabled, P.MainEnabled, R.Enabled, P.Enabled, Paired;
    CanBoth(c, j, s, a, b);
  }

  lemma SendGoes(c: R.Plan, j: P.Job, s: State, a: R.Step)
    requires Good(c, j, s) && R.MainEnabled(c, s.slots, a) && (a.SendPlain? || a.SendFenced?)
    ensures Enabled(c, j, s, Both(a, P.Dispatch)) && !External(Both(a, P.Dispatch))
  {
    GoodFacts(c, j, s);
    ShapeOf(c, s.slots);
    SendEffect(c, s.slots, a);
    NextBlock(c, s.slots, a.SendFenced?, a.SendFenced?);
    assert |s.slots.workChan| < c.Capacity();
    hide Good, RS.Safe, RR.Causes, P.Job.Valid, RD.AllBlocks, PC.Inv, PR.Sound, Sent, R.AtBlock, WorkersLinked, Fresh, ErrorsLinked, ItemOf,
      R.MainEnabled, R.DoMain, RS.Shape;
    assert s.slots.main.phase.Dispatching?;
    assert P.MainEnabled(j, s.pipe, P.Dispatch);
    hide P.MainEnabled;
    MainMeets(c, j, s, a, P.Dispatch);
  }

  lemma JoinGoes(c: R.Plan, j: P.Job, s: State) returns (step: Step)
    requires Good(c, j, s) && R.MainEnabled(c, s.slots, R.Join)
    ensures Enabled(c, j, s, step) && !External(step)
  {
    GoodFacts(c, j, s);
    ShapeOf(c, s.slots);
    assert s.slots.main.phase == R.Joining ==> s.slots.main.part == |c.parts|;
    assert s.slots.main.phase == R.Joining || s.slots.main.phase == R.Failed;
    hide Good, RS.Safe, RR.Causes, P.Job.Valid, PC.Inv, PR.Sound, QueueLinked, WorkersLinked, Fresh, ErrorsLinked, R.MainEnabled, R.Plan.Readers, R.Plan.Slots, RS.Shape;
    if s.slots.main.phase == R.Joining {
      assert RD.Dispatched(c, s.slots.main) == RD.AllBlocks(c) + [];
      step := Both(R.Join, P.CloseWork);
      assert P.MainEnabled(j, s.pipe, P.CloseWork);
      hide P.MainEnabled, Enabled, External;
      MainMeets(c, j, s, R.Join, P.CloseWork);
    } else {
      step := Both(R.Join, P.Abort(false));
      assert P.MainEnabled(j, s.pipe, P.Abort(false));
      hide P.MainEnabled, Enabled, External;
      MainMeets(c, j, s, R.Join, P.Abort(false));
    }
  }

  // ---------- While the caller is at work ----------

  predicate Free(a: R.Step) {
    a.Claim? || a.Read? || a.Hand? || a.Quit? || OfCaller(a) || a.Wake?
  }

  lemma FreeGoes(c: R.Plan, j: P.Job, s: State, a: R.Step)
    requires R.Enabled(c, s.slots, a) && Free(a)
    ensures Enabled(c, j, s, Slots(a)) && !External(Slots(a))
  {
    hide R.Enabled;
    assert OfSlots(s, a);
    CanSlots(c, j, s, a);
  }

  // What an enabled step of the slot protocol is.
  lemma StepKinds(c: R.Plan, s: R.State, a: R.Step)
    requires R.Enabled(c, s, a) && !R.External(a)
    ensures Free(a) || a.SendPlain? || a.SendFenced? || a.Join? || a.Released? || a.Conclude? || RS.WorkerOf(a) >= 0
            || a.Report? || a.CancelByWriter?
    ensures a.SendPlain? || a.SendFenced? || a.Join? || a.Released? || a.Conclude? ==> R.MainEnabled(c, s, a)
    ensures a.Released? || a.Conclude? ==> s.main.phase == R.Shutting || s.main.phase == R.Draining
    ensures RS.WorkerOf(a) >= 0 ==> RS.WorkerOf(a) < |s.workers| && !s.workers[RS.WorkerOf(a)].Left?
    ensures RS.WorkerOf(a) >= 0 && s.workers[RS.WorkerOf(a)] == R.Idle ==> s.workChan != [] || R.WorkClosed(s.main)
    ensures a.Report? ==> s.flags.errorQueued && !s.flags.reported
    ensures a.CancelByWriter? ==> s.flags.reported && !s.flags.cancelled
  {
    hide R.Plan.Readers, R.Plan.Slots, R.ReadersGone, R.WorkersLeft, R.WorkClosed, R.AtBlock;
  }

  // The writer moves, when an error waits for it or for the workers.
  lemma WriterAwaited(c: R.Plan, j: P.Job, s: State) returns (step: Step)
    requires Good(c, j, s)
    requires (s.slots.flags.errorQueued && !s.slots.flags.reported) || (s.slots.flags.reported && !s.slots.flags.cancelled)
    ensures Enabled(c, j, s, step) && !External(step)
  {
    hide *;
    WriterState(c, j, s);
    GoodFacts(c, j, s);
    PN.WriterCan(j, s.pipe);
    step := WriterGoes(c, j, s, PN.WriterStep(s.pipe));
  }

  lemma CallerGoes(c: R.Plan, j: P.Job, s: State) returns (step: Step)
    requires Good(c, j, s) && !RR.Ended(s.slots) && s.slots.main.phase != R.Shutting && s.slots.main.phase != R.Draining
    ensures Enabled(c, j, s, step) && !External(step)
  {
    hide *;
    GoodFacts(c, j, s);
    SoundIf(c, s.slots);
    var a := RR.NotStuck(c, s.slots);
    StepKinds(c, s.slots, a);
    if Free(a) {
      step := Slots(a);
      FreeGoes(c, j, s, a);
    } else if a.SendPlain? || a.SendFenced? {
      step := Both(a, P.Dispatch);
      SendGoes(c, j, s, a);
    } else if a.Join? {
      step := JoinGoes(c, j, s);
    } else if a.Report? || a.CancelByWriter? {
      step := WriterAwaited(c, j, s);
    } else {
      step := WorkerGoes(c, j, s, RS.WorkerOf(a));
    }
  }

  lemma SoundIf(c: R.Plan, s: R.State)
    requires RS.Safe(c, s) && RR.Causes(c, s)
    ensures RR.Sound(c, s)
  {
  }

  // ---------- While the build is torn down or drained ----------

  lemma PipeStepKinds(j: P.Job, s: P.State, b: P.Step)
    requires P.Enabled(j, s, b) && b != P.CancelParent && s.main.phase != P.Adding && s.main.phase != P.Finishing
    ensures PC.WorkerOf(b) >= 0 || b.WorkersDone? || b.Conclude? || P.WriterEnabled(j, s, b)
    ensures b.WorkersDone? || b.Conclude? ==> P.MainEnabled(j, s, b)
    ensures PC.WorkerOf(b) >= 0 ==> PC.WorkerOf(b) < |s.pool.workers| && !s.pool.workers[PC.WorkerOf(b)].Exited?
  {
    hide P.AllExited, P.TornFits, P.Job.Capacity, P.Laid;
  }

  lemma DoneGoes(c: R.Plan, j: P.Job, s: State)
    requires P.MainEnabled(j, s.pipe, P.WorkersDone)
    ensures Enabled(c, j, s, Pipe(P.WorkersDone)) && !External(Pipe(P.WorkersDone))
  {
    assert P.Enabled(j, s.pipe, P.WorkersDone) by { hide P.MainEnabled; }
    hide P.MainEnabled, P.Enabled;
    assert OfPipe(j, s, P.WorkersDone);
    CanPipe(c, j, s, P.WorkersDone);
  }

  lemma AllLeft(c: R.Plan, j: P.Job, s: State)
    requires Good(c, j, s) && P.ResultsClosed(s.pipe.main)
    ensures R.WorkersLeft(s.slots)
  {
    GoodFacts(c, j, s);
    assert PC.Workers(s.pipe) by { WorkersOpen(j, s.pipe); }
    assert WorkersLinked(c, s);
    hide Good, RS.Safe, RR.Causes, P.Job.Valid, RD.AllBlocks, PC.Inv, PR.Sound, QueueLinked, Fresh, ErrorsLinked, MainLinked, ItemOf;
    forall i | 0 <= i < |s.slots.workers| ensures s.slots.workers[i].Left? {
      assert s.pipe.pool.workers[i].Exited?;
      assert WorkerLinked(c, s.contents, s.slots.workers[i], s.pipe.pool.workers[i]);
    }
  }

  lemma Concluding(j: P.Job, s: P.State, io: bool)
    requires P.MainEnabled(j, s, P.Conclude(io))
    ensures P.ResultsClosed(s.main) && P.WriterDoneReadable(s.writer) && s.main.phase in {P.DrainFailed, P.Draining, P.Stopped}
  {
    hide P.Laid;
  }

  lemma ReturnEnabled(c: R.Plan, s: R.State, a: R.Step)
    requires R.WorkersLeft(s) && R.WriterHeard(s)
    requires (s.main.phase == R.Draining && a.Conclude?) || (s.main.phase == R.Shutting && a.Released?)
    ensures R.MainEnabled(c, s, a)
  {
    hide R.WorkersLeft, R.WriterHeard;
  }

  lemma ErrorHeard(c: R.Plan, j: P.Job, s: State)
    requires Good(c, j, s) && P.WriterDoneReadable(s.pipe.writer)
    ensures R.WriterHeard(s.slots)
  {
    WriterState(c, j, s);
    hide Good;
  }

  lemma ReturnGoes(c: R.Plan, j: P.Job, s: State, io: bool) returns (step: Step)
    requires Good(c, j, s) && P.MainEnabled(j, s.pipe, P.Conclude(io))
    ensures Enabled(c, j, s, step) && !External(step)
  {
    hide *;
    Concluding(j, s.pipe, io);
    AllLeft(c, j, s);
    ErrorHeard(c, j, s);
    MainKinds(c, j, s);
    var a := if s.slots.main.phase == R.Draining then R.Conclude(io && P.InSize(j, s.pipe.writer.iw)) else R.Released;
    ReturnEnabled(c, s.slots, a);
    step := Both(a, P.Conclude(io));
    MainMeets(c, j, s, a, P.Conclude(io));
  }

  // Where the caller is, in both machines.
  lemma MainKinds(c: R.Plan, j: P.Job, s: State)
    requires Good(c, j, s)
    ensures s.pipe.main.phase == P.Finishing <==> !R.WorkClosed(s.slots.main)
    ensures s.pipe.main.phase.Returned? <==> s.slots.main.phase.Done?
    ensures s.pipe.main.phase.Returned? ==> s.slots.main.result == Some(s.pipe.main.phase.succeeded)
    ensures s.slots.main.phase == R.Draining <==> s.pipe.main.phase in {P.Waiting, P.DrainFailed, P.Draining}
    ensures s.slots.main.phase == R.Shutting <==> s.pipe.main.phase in {P.Stopping, P.Stopped}
    ensures s.pipe.main.phase != P.Adding
  {
    assert MainLinked(c, s.slots.main, s.pipe.main) by {
      hide RS.Safe, RR.Causes, PR.Sound, QueueLinked, WorkersLinked, ErrorsLinked, Fresh, Fits, MainLinked;
    }
    hide Good, Sent;
  }

  lemma ClosingGoes(c: R.Plan, j: P.Job, s: State) returns (step: Step)
    requires Good(c, j, s) && R.WorkClosed(s.slots.main) && !PN.Ended(s.pipe)
    ensures Enabled(c, j, s, step) && !External(step)
  {
    hide *;
    GoodFacts(c, j, s);
    MainKinds(c, j, s);
    var b := PN.NotStuck(j, s.pipe);
    PipeStepKinds(j, s.pipe, b);
    if b.WorkersDone? {
      step := Pipe(b);
      DoneGoes(c, j, s);
    } else if b.Conclude? {
      step := ReturnGoes(c, j, s, b.io);
    } else if PC.WorkerOf(b) >= 0 {
      StillHere(c, j, s, PC.WorkerOf(b));
      step := WorkerGoes(c, j, s, PC.WorkerOf(b));
    } else {
      step := WriterGoes(c, j, s, b);
    }
  }

  lemma StillHere(c: R.Plan, j: P.Job, s: State, i: nat)
    requires Good(c, j, s) && i < |s.pipe.pool.workers| && !s.pipe.pool.workers[i].Exited?
    ensures i < |s.slots.workers| && !s.slots.workers[i].Left?
  {
    GoodFacts(c, j, s);
    assert WorkersLinked(c, s);
    hide Good, RS.Safe, RR.Causes, P.Job.Valid, RD.AllBlocks, PC.Inv, PR.Sound, QueueLinked, Fresh, ErrorsLinked, MainLinked, ItemOf;
    assert WorkerLinked(c, s.contents, s.slots.workers[i], s.pipe.pool.workers[i]);
  }

  // With the pipeline's goroutines gone, so are the readers.
  lemma AllGone(c: R.Plan, j: P.Job, s: State)
    requires Good(c, j, s) && PN.Ended(s.pipe)
    ensures RR.Ended(s.slots)
  {
    MainKinds(c, j, s);
    AllLeft(c, j, s);
    GoodFacts(c, j, s);
    ShapeOf(c, s.slots);
    hide Good, RS.Safe, RR.Causes, P.Job.Valid, RD.AllBlocks, PC.Inv, PR.Sound, Linked, R.Plan.Readers, R.Plan.Slots;
  }

  /** Until the call has returned and readers, workers and writer are gone, some goroutine can
      step: full channels, waiting readers and failures included. */
  lemma NotStuck(c: R.Plan, j: P.Job, s: State) returns (step: Step)
    requires Good(c, j, s) && !Ended(s)
    ensures Enabled(c, j, s, step) && !External(step)
  {
    hide Good, Enabled, External, RR.Ended, PN.Ended;
    if PN.Ended(s.pipe) {
      AllGone(c, j, s);
    }
    if R.WorkClosed(s.slots.main) {
      step := ClosingGoes(c, j, s);
    } else {
      NotEnded(s.slots);
      step := CallerGoes(c, j, s);
    }
  }

  lemma NotEnded(s: R.State)
    requires !R.WorkClosed(s.main)
    ensures !RR.Ended(s)
  {
  }

  // ---------- Whole runs ----------

  lemma {:induction false} StepsSeen(steps: seq<Step>)
    ensures |steps| + 1 <= |SlotSteps(steps)| + |SlotPipeline.PipeSteps(steps)|
  {
    if |steps| > 0 {
      StepsSeen(steps[..|steps| - 1]);
    }
  }

  /** Every run is finite. */
  lemma RunsAreBounded(c: R.Plan, j: P.Job, file: seq<Byte>, steps: seq<Step>, s: State)
    requires Fits(c, j) && Counted(j) && Reaches(c, j, file, steps, s)
    ensures R.Init(c).main.part <= |c.parts|
    ensures |steps| <= RR.Measure(c, R.Init(c)) + 9 * |j.blocks| + 2 * j.workers + 8
  {
    hide *;
    FitsValid(c, j);
    Projects(c, j, file, steps, s);
    StepsSeen(steps);
    RR.RunsEnd(c, SlotSteps(steps), s.slots);
    PN.RunsAreBounded(j, file, SlotPipeline.PipeSteps(steps), s.pipe);
  }

  /** A run that can go no further has ended: the call has returned, and every reader, worker and
      the writer is gone. */
  lemma MaximalRunsEnd(c: R.Plan, j: P.Job, file: seq<Byte>, steps: seq<Step>, s: State)
    requires Fits(c, j) && Counted(j) && Reaches(c, j, file, steps, s)
    requires forall step :: Enabled(c, j, s, step) ==> External(step)
    ensures Ended(s)
  {
    ReachedGood(c, j, file, steps, s);
    hide Reaches, Good, Enabled, Ended, Fits, Counted, External;
    if !Ended(s) {
      var step := NotStuck(c, j, s);
      assert false;
    }
  }

  /** A finish that returns without an error has published the index of all blocks. */
  lemma NilPublishes(c: R.Plan, j: P.Job, file: seq<Byte>, steps: seq<Step>, s: State)
    requires Fits(c, j) && Counted(j) && Reaches(c, j, file, steps, s) && s.slots.main.result == Some(true)
    ensures j.AllBuild(|j.blocks|) && j.c.Valid()
    ensures s.pipe.main.published == IndexWriter.IndexBytes(j.c, j.h, j.Built(|j.blocks|))
  {
    hide *;
    FitsValid(c, j);
    ReachedGood(c, j, file, steps, s);
    Projects(c, j, file, steps, s);
    RD.ReachedResult(c, SlotSteps(steps), s.slots);
    MainKinds(c, j, s);
    ResultIs(s.slots);
    PN.SuccessIsTheIndex(j, file, SlotPipeline.PipeSteps(steps), s.pipe);
  }

  lemma ResultIs(s: R.State)
    requires RD.ResultSound(s)
    ensures s.main.result.Some? <==> s.main.phase.Done?
  {
  }

  // ---------- Only a failure makes the finish fail ----------

  // A step in which nothing fails and nobody cancels.
  predicate Faultless(step: Step) {
    match step
    case Slots(a) => !RF.Fault(a)
    case Pipe(b) => PN.Faultless(b)
    case Both(a, b) => !b.CancelParent? && !b.Emit? && (b.Conclude? ==> b.io)
  }

  lemma RoomInFile(j: P.Job, s: P.State, io: bool)
    requires j.Valid() && PN.Doable(j) && PR.Sound(j, s) && PN.Clean(s) && P.MainEnabled(j, s, P.Conclude(io))
    ensures P.InSize(j, s.writer.iw)
  {
    assert s.main.phase == P.Draining;
    hide PR.Sound, PN.Doable, P.Laid, P.InSize, P.MainEnabled;
    PN.RoomLeft(j, s, io);
  }

  // Which halves can be at fault.
  lemma PairFaults(j: P.Job, s: State, a: R.Step, b: P.Step)
    requires P.Enabled(j, s.pipe, b) && Paired(j, s, a, b) && Faultless(Both(a, b))
    ensures a != R.CancelParent && (PN.Faultless(b) || b.Abort?)
    ensures b.Abort? ==> a == R.Join && s.slots.main.phase == R.Failed
    ensures RF.Fault(a) ==> (b.Send? && WorkerAt(s, b.i).Sending? && WorkerAt(s, b.i).message.failed)
                            || (b.Conclude? && !P.InSize(j, s.pipe.writer.iw))
  {
    hide P.Enabled, P.Do, P.InSize;
  }

  lemma CleanHasNoFailure(s: State, i: nat)
    requires PN.Clean(s.pipe) && WorkerAt(s, i).Sending?
    ensures !WorkerAt(s, i).message.failed
  {
    assert PN.CleanWorker(s.pipe.pool.workers[i]);
  }

  lemma CalmGoesOn(c: R.Plan, s: R.State)
    requires RF.Calm(c, s)
    ensures s.main.phase != R.Failed
  {
  }

  // Neither half of the step is at fault.
  lemma HalvesFaultless(c: R.Plan, j: P.Job, s: State, a: R.Step, b: P.Step)
    requires Good(c, j, s) && Enabled(c, j, s, Both(a, b)) && Faultless(Both(a, b))
    requires PN.Doable(j) && PN.Clean(s.pipe) && RF.Calm(c, s.slots)
    ensures !RF.Fault(a) && a != R.CancelParent && PN.Faultless(b)
  {
    GoodFacts(c, j, s);
    PairKinds(c, j, s, a, b);
    assert P.Enabled(j, s.pipe, b) && Paired(j, s, a, b);
    hide *;
    PairFaults(j, s, a, b);
    CalmGoesOn(c, s.slots);
    if b.Send? && WorkerAt(s, b.i).Sending? {
      CleanHasNoFailure(s, b.i);
    } else if b.Conclude? {
      RoomInFile(j, s.pipe, b.io);
    }
  }

  ghost predicate Unhurt(c: R.Plan, s: State) { PN.Clean(s.pipe) && RF.Calm(c, s.slots) }

  lemma UnhurtKeeps(c: R.Plan, j: P.Job, s: State, step: Step)
    requires Good(c, j, s) && Enabled(c, j, s, step) && Faultless(step) && PN.Doable(j) && Unhurt(c, s)
    ensures Unhurt(c, Do(c, j, s, step))
  {
    GoodFacts(c, j, s);
    SoundIf(c, s.slots);
    hide Good, RS.Safe, RR.Causes, PC.Inv, Linked, P.Job.Valid, RD.AllBlocks, PN.Doable, PN.Clean, RF.Calm, PR.Sound, R.Enabled, P.Enabled, R.Do, P.Do,
      Paired, OfPipe;
    match step
    case Slots(a) =>
      assert a != R.CancelParent;
      RF.CalmKeeps(c, s.slots, a);
    case Pipe(b) =>
      PN.CleanStep(j, s.pipe, b);
    case Both(a, b) =>
      HalvesFaultless(c, j, s, a, b);
      RF.CalmKeeps(c, s.slots, a);
      PN.CleanStep(j, s.pipe, b);
  }

  lemma StartUnhurt(c: R.Plan, j: P.Job, file: seq<Byte>)
    requires c.Valid()
    ensures Unhurt(c, Init(c, j, file))
  {
    RF.CalmStart(c);
    hide RF.Calm, R.Plan.Slots;
  }

  lemma {:induction false} ReachedUnhurt(c: R.Plan, j: P.Job, file: seq<Byte>, steps: seq<Step>, s: State)
    requires Fits(c, j) && Counted(j) && PN.Doable(j) && Reaches(c, j, file, steps, s)
    requires forall i :: 0 <= i < |steps| ==> Faultless(steps[i])
    ensures Unhurt(c, s)
  {
    hide Good, Enabled, Do, Fits, Counted, PN.Doable, Unhurt, Faultless;
    if |steps| == 0 {
      FitsValid(c, j);
      StartUnhurt(c, j, file);
    } else {
      var n := |steps| - 1;
      var before :| Reaches(c, j, file, steps[..n], before) && Enabled(c, j, before, steps[n]) && s == Do(c, j, before, steps[n]);
      assert forall i :: 0 <= i < n ==> steps[..n][i] == steps[i];
      ReachedGood(c, j, file, steps[..n], before);
      ReachedUnhurt(c, j, file, steps[..n], before);
      UnhurtKeeps(c, j, before, steps[n]);
    }
  }

  /** If every block builds, the keys are as many as promised, the file has room, no system call
      fails and nobody cancels, every run that can go no further returns without an error. */
  lemma FaultlessReturnsNil(c: R.Plan, j: P.Job, file: seq<Byte>, steps: seq<Step>, s: State)
    requires Fits(c, j) && Counted(j) && PN.Doable(j) && Reaches(c, j, file, steps, s)
    requires forall i :: 0 <= i < |steps| ==> Faultless(steps[i])
    requires forall step :: Enabled(c, j, s, step) ==> External(step)
    ensures s.slots.main.result == Some(true)
  {
    MaximalRunsEnd(c, j, file, steps, s);
    hide *;
    FitsValid(c, j);
    ReachedUnhurt(c, j, file, steps, s);
    Projects(c, j, file, steps, s);
    RD.ReachedResult(c, SlotSteps(steps), s.slots);
    EndedUnhurt(c, s);
  }

  lemma EndedUnhurt(c: R.Plan, s: State)
    requires Ended(s) && Unhurt(c, s) && RD.ResultSound(s.slots)
    ensures s.slots.main.result == Some(true)
  {
    hide PN.Ended, PN.Clean, RR.Ended, RF.Calm, RD.ResultSound;
    RF.CalmReturned(c, s.slots);
  }

  // ---------- Goroutines left behind ----------

  lemma SlotsOver(c: R.Plan, j: P.Job, s: State, a: R.Step)
    requires Good(c, j, s) && Ended(s) && (forall step :: Enabled(c, j, s, step) ==> External(step)) && R.Enabled(c, s.slots, a)
    ensures R.External(a)
  {
    if !R.External(a) {
      hide *;
      StepKinds(c, s.slots, a);
      OverKinds(c, j, s, a);
      FreeGoes(c, j, s, a);
      assert false;
    }
  }

  lemma EndedIs(s: State)
    requires Ended(s)
    ensures s.slots.main.phase.Done? && s.pipe.writer.phase == P.Closed
    ensures forall i :: 0 <= i < |s.slots.workers| ==> s.slots.workers[i].Left?
  {
    hide P.AllExited, R.ReadersGone;
  }

  lemma OverPhases(c: R.Plan, s: R.State, a: R.Step)
    requires R.Enabled(c, s, a) && s.main.phase.Done?
    ensures !a.SendPlain? && !a.SendFenced? && !a.Join? && !a.Released? && !a.Conclude? && !a.Report?
  {
    hide R.Plan.Readers, R.Plan.Slots, R.ReadersGone, R.WorkersLeft;
  }

  // Once all has ended, only a waiter can still be woken.
  lemma OverKinds(c: R.Plan, j: P.Job, s: State, a: R.Step)
    requires Good(c, j, s) && Ended(s) && R.Enabled(c, s.slots, a) && !R.External(a)
    ensures Free(a)
  {
    hide *;
    WriterState(c, j, s);
    EndedIs(s);
    OverPhases(c, s.slots, a);
    StepKinds(c, s.slots, a);
  }

  /** A finish can leave a goroutine waiting for a fence only under a plan that meets the
      condition. */
  lemma WaiterNeeds(c: R.Plan, j: P.Job, file: seq<Byte>, steps: seq<Step>, s: State)
    requires Fits(c, j) && Counted(j) && Reaches(c, j, file, steps, s)
    requires (forall step :: Enabled(c, j, s, step) ==> External(step)) && s.slots.waiters != multiset{}
    ensures RL.Leaky(c)
  {
    MaximalRunsEnd(c, j, file, steps, s);
    ReachedGood(c, j, file, steps, s);
    Projects(c, j, file, steps, s);
    FitsValid(c, j);
    hide Reaches, Good, Enabled, Ended, Fits, Counted, R.Reaches, P.Reaches, R.Enabled, R.External, External, RL.Leaky, R.Plan.Valid, P.Job.Valid;
    forall a | R.Enabled(c, s.slots, a) ensures R.External(a) {
      SlotsOver(c, j, s, a);
    }
    assert RL.LeavesWaiter(c, SlotSteps(steps), s.slots);
    RL.LeakNeeds(c, SlotSteps(steps), s.slots);
  }
}
