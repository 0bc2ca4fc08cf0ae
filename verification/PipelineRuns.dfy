/** Whole runs of the parallel build: they end, with every goroutine gone; success means the
    serial build's file; and without a fault there is success. */
module PipelineRuns {
  import opened Basics
  import opened Encoding
  import opened Files
  import opened IndexFormat
  import opened IndexWriter
  import opened Pipeline
  import opened PipelineControl
  import opened PipelineFlight
  import opened PipelineContent
  import opened PipelineResult

  // ---------- A measure of the work left ----------

  function WorkerWeight(w: Worker): nat {
    match w
    case Starting => 2
    case Ready => 1
    case Holding(_, checked) => if checked then 7 else 8
    case Sending(_) => 6
    case Failing => 1
    case Exited(_) => 0
  }

  function WorkersWeight(ws: seq<Worker>): nat {
    if |ws| == 0 then 0 else WorkerWeight(ws[0]) + WorkersWeight(ws[1..])
  }

  function PhaseWeight(p: Phase): nat {
    match p
    case Adding => 4
    case Finishing => 3
    case Waiting => 2
    case Stopping => 2
    case DrainFailed => 1
    case Draining => 1
    case Stopped => 1
    case Returned(_) => 0
  }

  function WriterWeight(p: WriterPhase): nat {
    match p
    case Running => 4
    case Reported => 2
    case Closing => 1
    case Closed => 0
  }

  function MainWeight(j: Job, m: Main): int {
    9 * (|j.blocks| - m.next) + PhaseWeight(m.phase)
  }

  function WriterStateWeight(w: WriterState): nat {
    WriterWeight(w.phase) + One(w.done) + 2 * |w.pending|
  }

  function Measure(j: Job, s: State): int {
    MainWeight(j, s.main) + 8 * |s.workChan| + WorkersWeight(s.pool.workers) + One(!s.pool.parentDone)
    + 3 * |s.results| + WriterStateWeight(s.writer)
  }

  lemma {:induction false} WeightSet(ws: seq<Worker>, i: nat, w: Worker)
    requires i < |ws|
    ensures WorkersWeight(ws[i := w]) + WorkerWeight(ws[i]) == WorkersWeight(ws) + WorkerWeight(w)
  {
    if i == 0 {
      assert ws[0 := w][1..] == ws[1..];
    } else {
      WeightSet(ws[1..], i - 1, w);
      assert ws[i := w][1..] == ws[1..][i - 1 := w];
    }
  }

  lemma MainDecreases(j: Job, s: State, step: Step)
    requires MainEnabled(j, s, step)
    ensures Measure(j, DoMain(j, s, step)) < Measure(j, s)
  {
    MainFrame(j, s, step);
    NextOf(j, s, step);
    WorkChanOf(j, s, step);
    PhaseFalls(j, s, step);
    hide DoMain, MainEnabled, WorkersWeight;
  }

  lemma PhaseFalls(j: Job, s: State, step: Step)
    requires MainEnabled(j, s, step)
    ensures var t := DoMain(j, s, step);
            && PhaseWeight(t.main.phase) <= PhaseWeight(s.main.phase)
            && (step != Dispatch ==> t.main.next > s.main.next || PhaseWeight(t.main.phase) < PhaseWeight(s.main.phase)
                                     || (s.writer.done && !t.writer.done))
  {
    hide Finalized, InSize, Laid, Job.KeysBefore, Job.Capacity, AllExited;
  }

  lemma WorkerDecreases(j: Job, s: State, step: Step)
    requires WorkerEnabled(j, s, step)
    ensures Measure(j, DoWorker(j, s, step)) < Measure(j, s)
  {
    var t, i := DoWorker(j, s, step), WorkerOf(step);
    WorkerFrame(j, s, step);
    WorkerMoves(j, s, step);
    WorkerResults(j, s, step);
    WorkerTurns(j, s, step);
    WeightSet(s.pool.workers, i, t.pool.workers[i]);
    hide DoWorker, WorkerEnabled, WorkersWeight, MainWeight;
  }

  // How the worker's own weight changes.
  lemma WorkerTurns(j: Job, s: State, step: Step)
    requires WorkerEnabled(j, s, step)
    ensures var t, i, workers := DoWorker(j, s, step), WorkerOf(step), s.pool.workers;
            && 0 <= i < |workers| == |t.pool.workers|
            && var before, after := WorkerWeight(workers[i]), WorkerWeight(t.pool.workers[i]);
               if step.Take? then after == before + 7 else if step.Send? then after + 5 <= before else after < before
  {
    hide BuildBlock, TornFits, Job.Capacity;
  }

  lemma WriterDecreases(j: Job, s: State, step: Step)
    requires Flight(s) && WriterEnabled(j, s, step)
    ensures Measure(j, DoWriter(j, s, step)) < Measure(j, s)
  {
    WriterFrame(j, s, step);
    if step.Receive? {
      ReceivedIsNew(s);
      ReceivedWeight(s.writer, s.results[0]);
    } else if step.Emit? {
      EmittedWeight(j, s.writer, step.metadataFault);
    }
    hide Emit1, Receive1, Laid, WorkersWeight, MainWeight, Flight;
  }

  lemma ReceivedWeight(w: WriterState, m: Message)
    requires w.phase == Running && m.block !in w.pending
    ensures WriterStateWeight(Receive1(w, m)) <= WriterStateWeight(w) + 2
  {
    assert (w.pending[m.block := m]).Keys == w.pending.Keys + {m.block};
  }

  lemma EmittedWeight(j: Job, w: WriterState, fault: Fault)
    requires NextPending(w) && Laid(j, w.iw) && w.phase == Running
    ensures WriterStateWeight(Emit1(j, w, fault)) < WriterStateWeight(w)
  {
    var rest := w.pending - {w.iw.blockCount};
    assert w.pending.Keys == rest.Keys + {w.iw.blockCount};
    assert |w.pending| == |rest| + 1;
    hide WriteMetadata, Laid;
  }

  /** Every step uses up some of the work left. */
  lemma StepDecreases(j: Job, s: State, step: Step)
    requires Sound(j, s) && Enabled(j, s, step)
    ensures Measure(j, Do(j, s, step)) < Measure(j, s)
  {
    hide Inv, Content, Published, Flight, MainEnabled, WorkerEnabled, WriterEnabled, DoMain, DoWorker, DoWriter, WorkersWeight, MainWeight,
      WriterStateWeight;
    if MainEnabled(j, s, step) {
      MainDecreases(j, s, step);
    } else if WorkerEnabled(j, s, step) {
      WorkerDecreases(j, s, step);
    } else if WriterEnabled(j, s, step) {
      WriterDecreases(j, s, step);
    }
  }

  lemma MeasurePositive(j: Job, s: State)
    requires Inv(j, s)
    ensures Measure(j, s) >= 0
  {
    hide Workers, ErrorKept, Poisoned, Job.KeysBefore, WorkersWeight;
  }

  // ---------- Nothing gets stuck ----------

  // The caller has its result and every goroutine is gone.
  ghost predicate Ended(s: State) {
    s.main.phase.Returned? && AllExited(s.pool) && s.writer.phase == Closed
  }

  // A step the writer can take, unless it waits for a worker's message.
  function WriterStep(s: State): Step {
    match s.writer.phase
    case Running => if NextPending(s.writer) then Emit(None) else if |s.results| > 0 then Receive else WriterLeave
    case Reported => CancelByWriter
    case _ => CloseDone
  }

  lemma WriterCan(j: Job, s: State)
    requires j.Valid() && Sound(j, s) && s.writer.phase != Closed
    requires |s.results| > 0 || ResultsClosed(s.main) || s.writer.phase != Running
    ensures WriterEnabled(j, s, WriterStep(s)) && WriterStep(s) != CancelParent
  {
    hide Inv, Flight, Published, Moving, Ordered, Delivered, GoodMessage, Config.Valid, Config.MetadataRegionOffset;
  }

  // What a worker does next when nothing fails.
  ghost function WorkerStep(j: Job, s: State, i: nat): Step
    requires i < |s.pool.workers|
  {
    match s.pool.workers[i]
    case Starting => Start(i, true)
    case Ready => if |s.workChan| > 0 then Take(i) else Leave(i)
    case Holding(_, checked) => if checked then Step.Build(i, None) else if s.pool.cancelled then Abandon(i) else Check(i)
    case Sending(_) => if |s.results| < j.Capacity() then Send(i) else SendCancelled(i)
    case _ => Exit(i)
  }

  lemma WorkerStepEnabled(j: Job, s: State, i: nat)
    requires i < |s.pool.workers| && !s.pool.workers[i].Exited?
    requires s.pool.workers[i] == Ready ==> |s.workChan| > 0 || WorkClosed(s.main)
    requires s.pool.workers[i].Holding? ==> TornFits(j, s.pool.workers[i].work.block, None)
    requires s.pool.workers[i].Sending? ==> |s.results| < j.Capacity() || s.pool.cancelled
    ensures WorkerEnabled(j, s, WorkerStep(j, s, i)) && WorkerStep(j, s, i) != CancelParent
  {
    hide TornFits, Job.Capacity;
  }

  // A worker that has not left can step, or the writer can.
  lemma WorkerCan(j: Job, s: State, i: nat) returns (step: Step)
    requires j.Valid() && Sound(j, s) && i < |s.pool.workers| && !s.pool.workers[i].Exited?
    requires s.pool.workers[i] == Ready ==> |s.workChan| > 0 || WorkClosed(s.main)
    ensures Enabled(j, s, step) && step != CancelParent
  {
    HeldIsBlock(j, s, i);
    hide Inv, Flight, Published, Content, WriterEnabled, WorkerEnabled, MainEnabled, WriterStep, WorkerStep, TornFits, Job.Capacity;
    if s.pool.workers[i].Sending? && |s.results| >= j.Capacity() && !s.pool.cancelled {
      WriterOpen(j, s);
      step := WriterStep(s);
      WriterCan(j, s);
    } else {
      step := WorkerStep(j, s, i);
      WorkerStepEnabled(j, s, i);
    }
  }

  lemma HeldIsBlock(j: Job, s: State, i: nat)
    requires Sound(j, s) && i < |s.pool.workers|
    ensures s.pool.workers[i].Holding? ==> TornFits(j, s.pool.workers[i].work.block, None)
  {
    hide Inv, Flight, Published, Arrived, Ordered, GoodMessage;
    assert GoodWorker(j, s.writer.iw.file, s.pool.workers[i]);
  }

  // With messages queued and no cancellation, the writer is there.
  lemma WriterOpen(j: Job, s: State)
    requires j.Valid() && Inv(j, s)
    ensures !s.pool.cancelled && |s.results| > 0 ==> s.writer.phase != Closed
    ensures j.Capacity() > 0
  {
    hide Job.KeysBefore, Poisoned, Job.Sized;
  }

  lemma SomeWorkerLeft(j: Job, s: State) returns (i: nat)
    requires j.Valid() && Inv(j, s) && !WorkClosed(s.main) && !s.pool.cancelled
    ensures i < |s.pool.workers| && !s.pool.workers[i].Exited?
  {
    i := 0;
    hide Job.KeysBefore, Poisoned, ErrorKept;
  }

  lemma MainCan(j: Job, s: State) returns (step: Step)
    requires j.Valid() && Sound(j, s) && !s.main.phase.Returned?
    ensures Enabled(j, s, step) && step != CancelParent
  {
    match s.main.phase {
      case Adding =>
        step := Finish;
      case Finishing =>
        step := FinishingCan(j, s);
      case _ =>
        step := ClosedCan(j, s);
    }
  }

  lemma ClosedCan(j: Job, s: State) returns (step: Step)
    requires j.Valid() && Sound(j, s) && WorkClosed(s.main) && !s.main.phase.Returned?
    ensures Enabled(j, s, step) && step != CancelParent
  {
    hide Flight, Published, Content, WorkerEnabled, WriterEnabled, Control, ErrorKept, Poisoned;
    if !AllExited(s.pool) {
      var i :| 0 <= i < |s.pool.workers| && !s.pool.workers[i].Exited?;
      step := WorkerCan(j, s, i);
    } else if s.main.phase == Waiting || s.main.phase == Stopping {
      step := WorkersDone;
    } else if WriterDoneReadable(s.writer) {
      step := Conclude(true);
      LaidOut(j, s);
    } else {
      step := WriterStep(s);
      WriterCan(j, s);
    }
  }

  lemma LaidOut(j: Job, s: State)
    requires j.Valid() && Content(j, s)
    ensures Laid(j, s.writer.iw)
  {
    hide Moving, Ordered, Delivered, GoodMessage, Config.Valid, Config.MetadataRegionOffset;
  }

  lemma FinishingCan(j: Job, s: State) returns (step: Step)
    requires j.Valid() && Sound(j, s) && s.main.phase == Finishing
    ensures Enabled(j, s, step) && step != CancelParent
  {
    hide Flight, Published, Content, WorkerEnabled, WriterEnabled;
    assert s.main.next <= |j.blocks|;
    if s.main.next == |j.blocks| {
      step := CloseWork;
    } else if |s.workChan| < j.Capacity() {
      step := Dispatch;
    } else if s.pool.cancelled {
      step := DispatchCancelled;
    } else {
      WriterOpen(j, s);
      var i := SomeWorkerLeft(j, s);
      step := WorkerCan(j, s, i);
    }
  }

  /** Until everything has ended, some goroutine can take a step: the build never gets stuck,
      failures and cancellation included. */
  lemma NotStuck(j: Job, s: State) returns (step: Step)
    requires j.Valid() && Sound(j, s) && !Ended(s)
    ensures Enabled(j, s, step) && step != CancelParent
  {
    if !s.main.phase.Returned? {
      step := MainCan(j, s);
    } else {
      assert AllExited(s.pool) && s.writer.phase != Running by { hide Flight, Published, Content, Poisoned, Control; }
      step := WriterStep(s);
      WriterCan(j, s);
    }
  }

  // ---------- Runs ----------

  lemma {:induction false} ReachedSound(j: Job, file: seq<Byte>, steps: seq<Step>, s: State)
    requires j.Valid() && Reaches(j, file, steps, s)
    ensures Sound(j, s) && |steps| + Measure(j, s) <= Measure(j, Init(j, file))
  {
    hide Sound, Measure, Enabled, Do;
    if |steps| == 0 {
      InitSound(j, file);
    } else {
      var n := |steps| - 1;
      var before :| Reaches(j, file, steps[..n], before) && Enabled(j, before, steps[n]) && s == Do(j, before, steps[n]);
      ReachedSound(j, file, steps[..n], before);
      SoundKeeps(j, before, steps[n]);
      StepDecreases(j, before, steps[n]);
    }
  }

  lemma {:induction false} StartingWeight(ws: seq<Worker>)
    requires forall i :: 0 <= i < |ws| ==> ws[i] == Starting
    ensures WorkersWeight(ws) == 2 * |ws|
  {
    if |ws| > 0 {
      StartingWeight(ws[1..]);
    }
  }

  /** Runs are bounded: nine steps a block, two a worker, and nine. */
  lemma RunsAreBounded(j: Job, file: seq<Byte>, steps: seq<Step>, s: State)
    requires j.Valid() && Reaches(j, file, steps, s)
    ensures |steps| <= 9 * |j.blocks| + 2 * j.workers + 9
  {
    ReachedSound(j, file, steps, s);
    MeasurePositive(j, s);
    StartingWeight(Init(j, file).pool.workers);
    hide Reaches, Sound;
  }

  /** However the goroutines interleave, and whatever fails or is cancelled: a run that can go
      no further has ended, the call has returned, and every goroutine is gone. */
  lemma MaximalRunsEnd(j: Job, file: seq<Byte>, steps: seq<Step>, s: State)
    requires j.Valid() && Reaches(j, file, steps, s)
    requires forall step :: Enabled(j, s, step) ==> step == CancelParent
    ensures Ended(s)
  {
    ReachedSound(j, file, steps, s);
    hide Reaches, Sound, Enabled, Ended;
    if !Ended(s) {
      var step := NotStuck(j, s);
      assert false;
    }
  }

  /** A run whose Finish returns no error lost no block, saw no error, and has written exactly
      the index of the blocks in order, as the serial build does. */
  lemma SuccessIsTheIndex(j: Job, file: seq<Byte>, steps: seq<Step>, s: State)
    requires j.Valid() && Reaches(j, file, steps, s) && s.main.phase == Returned(true)
    ensures !s.pool.groupFailed && !s.writer.reported && !s.main.dropped
    ensures s.writer.iw.blockCount == |j.blocks| && j.AllBuild(|j.blocks|)
    ensures j.c.Valid() && s.main.published == IndexBytes(j.c, j.h, j.Built(|j.blocks|))
  {
    ReachedSound(j, file, steps, s);
    hide Reaches, IndexBytes, Inv, Flight, Content, Job.Built, Job.AllBuild;
  }

  // ---------- Only a failure makes a build fail ----------

  // A step in which nothing fails, nobody cancels and the caller does not give up.
  predicate Faultless(step: Step) {
    match step
    case CancelParent => false
    case Close => false
    case Abort(_) => false
    case Start(_, ok) => ok
    case Build(_, fault) => fault.None?
    case Emit(fault) => fault.None?
    case Conclude(io) => io
    case _ => true
  }

  ghost predicate Clean(s: State) {
    && !s.pool.cancelled && !s.pool.parentDone && !s.pool.groupFailed
    && !s.main.dropped && !s.main.writerErr && !s.writer.reported && !s.writer.done
    && s.main.phase != Stopping && s.main.phase != Stopped && s.main.phase != DrainFailed && s.main.phase != Returned(false)
    && (forall i :: 0 <= i < |s.pool.workers| ==> CleanWorker(s.pool.workers[i]))
    && (forall k :: 0 <= k < |s.results| ==> !s.results[k].failed)
  }

  predicate CleanWorker(w: Worker) {
    w != Failing && w != Exited(true) && (w.Sending? ==> !w.message.failed)
  }

  // The job can be done: every block builds, the counts agree, and the file has room.
  ghost predicate Doable(j: Job) {
    && j.AllBuild(|j.blocks|) && j.KeysBefore(|j.blocks|) == j.c.totalKeys
    && j.c.MetadataRegionOffset() + |Metadata(j.Built(|j.blocks|))| + FOOTER_SIZE <= j.c.estimatedSize
  }

  lemma BuildSucceeds(j: Job, file: seq<Byte>, w: Work)
    requires j.Valid() && GoodWork(j, w) && j.build(j.blocks[w.block]).Some? && j.KeysBefore(|j.blocks|) == j.c.totalKeys
    ensures !BuildBlock(j, file, w, None).1.failed
  {
    PayloadEnds(j, w.block);
    KeysBeforeMonotone(j, w.block + 1, |j.blocks|);
    PayloadOffsets(j.c, j.KeysBefore(w.block + 1), j.c.totalKeys);
    PayloadOffsetIs(j.c, w.keysBefore);
    hide WriteAt, Job.KeysBefore, Config.PayloadOffset, Config.PayloadRegionOffset, Offset;
    PayloadAtIs(j, w.block);
    PayloadAtIs(j, w.block + 1);
  }

  lemma PayloadAtIs(j: Job, b: nat)
    requires b <= |j.blocks|
    ensures j.PayloadAt(b) == j.c.PayloadOffset(j.KeysBefore(b)) && j.c.MetadataRegionOffset() == j.c.PayloadOffset(j.c.totalKeys)
  {
  }

  lemma RoomLeft(j: Job, s: State, io: bool)
    requires j.Valid() && Doable(j) && Sound(j, s) && s.main.phase == Draining && MainEnabled(j, s, Conclude(io)) && !s.writer.done
    ensures InSize(j, s.writer.iw)
  {
    AllWritten(j, s);
    CommittedOffset(j.c, j.h, s.writer.iw, j.Built(|j.blocks|));
    hide Flight, Inv, Published, Config.MetadataRegionOffset, Metadata, Job.Built, Job.KeysBefore;
  }

  lemma CleanMain(j: Job, s: State, step: Step)
    requires j.Valid() && Doable(j) && Sound(j, s) && Clean(s) && MainEnabled(j, s, step) && Faultless(step)
    ensures Clean(DoMain(j, s, step))
  {
    if s.main.phase == Draining && step.Conclude? {
      RoomLeft(j, s, step.io);
    }
    var t := DoMain(j, s, step);
    MainFrame(j, s, step);
    assert s.writer.phase == Closed ==> ResultsClosed(s.main) by {
      hide Flight, Published, Content, Control, Workers, Poisoned;
    }
    hide Flight, Published, Content, Inv, Finalized, InSize, Laid, Job.Capacity, AllExited, Job.KeysBefore, Metadata, Job.Built;
  }

  lemma CleanWorkerStep(j: Job, s: State, step: Step)
    requires j.Valid() && Doable(j) && Sound(j, s) && Clean(s) && WorkerEnabled(j, s, step) && Faultless(step)
    ensures Clean(DoWorker(j, s, step))
  {
    WorkerFrame(j, s, step);
    WorkerMoves(j, s, step);
    WorkerResults(j, s, step);
    CleanTurn(j, s, step);
    var t, i := DoWorker(j, s, step), WorkerOf(step);
    hide Flight, Published, Content, Inv, DoWorker, WorkerEnabled, Doable;
    forall k | 0 <= k < |t.pool.workers| ensures CleanWorker(t.pool.workers[k]) {
      assert CleanWorker(s.pool.workers[k]);
    }
  }

  lemma CleanTurn(j: Job, s: State, step: Step)
    requires j.Valid() && Doable(j) && Sound(j, s) && Clean(s) && WorkerEnabled(j, s, step) && Faultless(step)
    ensures var t, i := DoWorker(j, s, step), WorkerOf(step);
            && 0 <= i < |s.pool.workers| == |t.pool.workers| && CleanWorker(t.pool.workers[i]) && !step.Exit?
            && (step.Send? ==> s.pool.workers[i].Sending? && !s.pool.workers[i].message.failed)
  {
    WorkerMoves(j, s, step);
    var i := WorkerOf(step);
    assert CleanWorker(s.pool.workers[i]);
    if step.Build? {
      assert GoodWorker(j, s.writer.iw.file, s.pool.workers[i]);
      BuildSucceeds(j, s.writer.iw.file, s.pool.workers[i].work);
    }
    hide Flight, Published, Content, Inv, BuildBlock, TornFits, Doable, Job.Capacity;
  }

  lemma CleanWriter(j: Job, s: State, step: Step)
    requires Clean(s) && WriterEnabled(j, s, step) && Faultless(step) && (s.writer.phase == Running || s.writer.reported)
    ensures Clean(DoWriter(j, s, step))
  {
    WriterFrame(j, s, step);
    hide WriteAt, Config.MetadataRegionOffset;
  }

  lemma CleanStep(j: Job, s: State, step: Step)
    requires j.Valid() && Doable(j) && Sound(j, s) && Clean(s) && Enabled(j, s, step) && Faultless(step)
    ensures Clean(Do(j, s, step))
  {
    if MainEnabled(j, s, step) {
      CleanMain(j, s, step);
    } else if WorkerEnabled(j, s, step) {
      CleanWorkerStep(j, s, step);
    } else {
      assert step != CancelParent;
      WriterOpenOrReported(j, s, step);
      CleanWriter(j, s, step);
    }
    hide *;
  }

  lemma WriterOpenOrReported(j: Job, s: State, step: Step)
    requires Sound(j, s) && WriterEnabled(j, s, step)
    ensures s.writer.phase == Running || s.writer.reported
  {
    hide Flight, Published, Content, Control, Workers, Poisoned;
  }

  lemma {:induction false} ReachedClean(j: Job, file: seq<Byte>, steps: seq<Step>, s: State)
    requires j.Valid() && Doable(j) && Reaches(j, file, steps, s)
    requires forall i :: 0 <= i < |steps| ==> Faultless(steps[i])
    ensures Clean(s)
  {
    hide Sound, Enabled, Do, Doable, Faultless;
    if |steps| > 0 {
      hide Clean;
      var n := |steps| - 1;
      var before :| Reaches(j, file, steps[..n], before) && Enabled(j, before, steps[n]) && s == Do(j, before, steps[n]);
      assert forall i :: 0 <= i < n ==> steps[..n][i] == steps[i];
      ReachedClean(j, file, steps[..n], before);
      ReachedSound(j, file, steps[..n], before);
      CleanStep(j, before, steps[n]);
    }
  }

  /** Only failures make a build fail: if every block builds, the counts agree, the file has
      room, no system call fails and nobody cancels, every maximal run ends in success. */
  lemma FaultlessRunsSucceed(j: Job, file: seq<Byte>, steps: seq<Step>, s: State)
    requires j.Valid() && Doable(j) && Reaches(j, file, steps, s)
    requires forall i :: 0 <= i < |steps| ==> Faultless(steps[i])
    requires forall step :: Enabled(j, s, step) ==> step == CancelParent
    ensures s.main.phase == Returned(true)
  {
    MaximalRunsEnd(j, file, steps, s);
    ReachedClean(j, file, steps, s);
    hide Reaches, Doable, Enabled;
  }
}
