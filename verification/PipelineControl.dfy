/** What every step of the pipeline keeps: the phases of its goroutines and channels. */
module PipelineControl {
  import opened Basics
  import opened IndexFormat
  import opened IndexWriter
  import opened Pipeline

  ghost predicate Control(j: Job, s: State) {
    var m := s.main;
    && |s.pool.workers| == j.workers && m.next <= |j.blocks| && m.keysBefore == j.KeysBefore(m.next)
    && |s.workChan| <= j.Capacity() && |s.results| <= j.Capacity()
    && (m.phase == Adding ==> m.next < |j.blocks|)
    && (m.phase in {Waiting, DrainFailed, Draining} ==> m.next == |j.blocks|)
    && (m.phase in {Finishing, Waiting, DrainFailed, Draining} ==> !m.writerErr && j.KeysBefore(|j.blocks|) == j.c.totalKeys)
    && (m.phase in {Stopping, Stopped} ==> s.pool.cancelled)
    && (m.phase == Draining ==> !s.pool.groupFailed)
    && (m.phase == DrainFailed ==> s.pool.groupFailed)
  }

  // A worker that leaves without an error leaves no work behind; an error cancels the rest.
  ghost predicate Workers(s: State) {
    var workers := s.pool.workers;
    && (forall i :: 0 <= i < |workers| && workers[i] == Exited(true) ==> s.pool.groupFailed)
    && (forall i :: 0 <= i < |workers| && workers[i] == Exited(false) ==> WorkClosed(s.main) && s.workChan == [])
    && (s.pool.groupFailed ==> s.pool.cancelled)
    && (s.pool.parentDone ==> s.pool.cancelled)
    && (ResultsClosed(s.main) ==> AllExited(s.pool))
  }

  // An error of the writer cancels the workers, and stays readable until it is stored.
  ghost predicate ErrorKept(s: State) {
    var w := s.writer;
    && (w.phase == Running ==> !w.reported)
    && (w.phase in {Reported, Closing} ==> w.reported)
    && (w.phase in {Closing, Closed} && w.reported ==> s.pool.cancelled)
    && (w.phase == Closed && !w.reported ==> ResultsClosed(s.main) && s.results == [] && !NextPending(w))
    && (w.done ==> w.reported)
    && (w.reported && !w.done ==> s.main.writerErr || s.main.phase.Returned?)
    && (s.main.phase.Returned? ==> w.phase != Running)
  }

  // The last block is queued for, or has stopped, a worker.
  ghost predicate LastHeld(workChan: seq<Work>, workers: seq<Worker>, last: int) {
    || (exists k :: 0 <= k < |workChan| && workChan[k].block == last)
    || (exists i :: 0 <= i < |workers| && Doomed(workers[i], last))
  }

  predicate Doomed(w: Worker, last: int) {
    (w.Holding? && w.work.block == last && !w.checked) || w == Failing || w == Exited(true)
  }

  // Once a block was not sent and its error not stored, the build is cancelled, and the last
  // block's send will reveal it.
  ghost predicate Poisoned(j: Job, s: State) {
    s.main.dropped && !s.main.writerErr && s.main.phase in {Adding, Finishing, Waiting, DrainFailed, Draining} ==>
      s.pool.cancelled && (s.main.next == |j.blocks| ==> LastHeld(s.workChan, s.pool.workers, |j.blocks| - 1))
  }

  ghost predicate Inv(j: Job, s: State) {
    Control(j, s) && Workers(s) && ErrorKept(s) && Poisoned(j, s)
  }

  lemma InitInv(j: Job, file: seq<Byte>)
    requires j.Valid()
    ensures Inv(j, Init(j, file))
  {
  }

  // ---------- What the steps leave alone ----------

  lemma MainFrame(j: Job, s: State, step: Step)
    requires MainEnabled(j, s, step)
    ensures var t := DoMain(j, s, step);
            && t.results == s.results && t.writer == s.writer.(done := t.writer.done) && (t.writer.done ==> s.writer.done)
            && t.pool == s.pool.(cancelled := t.pool.cancelled) && (s.pool.cancelled ==> t.pool.cancelled)
            && (WorkClosed(s.main) ==> WorkClosed(t.main)) && (ResultsClosed(s.main) ==> ResultsClosed(t.main))
            && (WorkClosed(s.main) ==> t.workChan == s.workChan || t.workChan == [])
            && (ResultsClosed(t.main) && !ResultsClosed(s.main) ==> AllExited(s.pool))
  {
    hide Finalized, InSize, Laid, Job.KeysBefore, Job.Capacity, AllExited;
  }

  lemma WorkerFrame(j: Job, s: State, step: Step)
    requires WorkerEnabled(j, s, step)
    ensures var t := DoWorker(j, s, step);
            && t.main == s.main
            && t.writer == s.writer.(iw := s.writer.iw.(file := t.writer.iw.file))
            && |t.pool.workers| == |s.pool.workers| && |t.workChan| <= |s.workChan|
            && (|t.results| == |s.results| || |s.results| < |t.results| <= j.Capacity())
            && t.pool == Pool(t.pool.workers, s.pool.parentDone, s.pool.cancelled || step.Exit?, s.pool.groupFailed || step.Exit?)
  {
    hide BuildBlock, TornFits, Job.Capacity;
  }

  // The worker a step is about.
  function WorkerOf(step: Step): int {
    match step
    case Start(i, _) => i
    case Take(i) => i
    case Abandon(i) => i
    case Check(i) => i
    case Build(i, _) => i
    case Send(i) => i
    case SendCancelled(i) => i
    case Exit(i) => i
    case Leave(i) => i
    case _ => -1
  }

  lemma WorkerMoves(j: Job, s: State, step: Step)
    requires WorkerEnabled(j, s, step)
    ensures var t, i, workers := DoWorker(j, s, step), WorkerOf(step), s.pool.workers;
            && 0 <= i < |workers| && !workers[i].Exited?
            && |t.pool.workers| == |workers| && t.pool.workers == workers[i := t.pool.workers[i]]
            && (t.pool.workers[i] == Exited(true) ==> step.Exit?)
            && (t.pool.workers[i] == Exited(false) ==> step.Leave? && WorkClosed(s.main) && s.workChan == [])
            && (step.Take? ==> |s.workChan| > 0 && t.pool.workers[i] == Holding(s.workChan[0], false) && t.workChan == s.workChan[1..])
            && (!step.Take? ==> t.workChan == s.workChan)
            && (workers[i].Holding? && !workers[i].checked && s.pool.cancelled ==> t.pool.workers[i] == Failing)
            && (workers[i] == Failing ==> t.pool.workers[i] == Exited(true))
  {
    hide BuildBlock, TornFits, Job.Capacity;
  }

  lemma WriterFrame(j: Job, s: State, step: Step)
    requires WriterEnabled(j, s, step)
    ensures var t := DoWriter(j, s, step);
            && t.main == s.main && t.workChan == s.workChan && |t.results| <= |s.results|
            && t.pool == s.pool.(cancelled := t.pool.cancelled) && (s.pool.cancelled ==> t.pool.cancelled)
  {
    hide Emit1, Receive1;
  }

  // ---------- Kept by every step ----------

  lemma ControlMain(j: Job, s: State, step: Step)
    requires Control(j, s) && MainEnabled(j, s, step)
    ensures Control(j, DoMain(j, s, step))
  {
    hide Finalized, InSize, Laid, AllExited;
  }

  lemma ControlWorker(j: Job, s: State, step: Step)
    requires Control(j, s) && Workers(s) && WorkerEnabled(j, s, step)
    ensures Control(j, DoWorker(j, s, step))
  {
    WorkerFrame(j, s, step);
    WorkerMoves(j, s, step);
    hide DoWorker, WorkerEnabled, Job.KeysBefore, Job.Capacity;
  }

  lemma ControlWriter(j: Job, s: State, step: Step)
    requires Control(j, s) && WriterEnabled(j, s, step)
    ensures Control(j, DoWriter(j, s, step))
  {
    WriterFrame(j, s, step);
    hide DoWriter, WriterEnabled, Job.KeysBefore, Job.Capacity;
  }

  lemma WorkersMain(j: Job, s: State, step: Step)
    requires Workers(s) && MainEnabled(j, s, step)
    ensures Workers(DoMain(j, s, step))
  {
    MainFrame(j, s, step);
    hide DoMain, MainEnabled;
  }

  lemma WorkersWorker(j: Job, s: State, step: Step)
    requires Workers(s) && WorkerEnabled(j, s, step)
    ensures Workers(DoWorker(j, s, step))
  {
    WorkerFrame(j, s, step);
    WorkerMoves(j, s, step);
    hide DoWorker, WorkerEnabled;
  }

  lemma WorkersWriter(j: Job, s: State, step: Step)
    requires Workers(s) && WriterEnabled(j, s, step)
    ensures Workers(DoWriter(j, s, step))
  {
    WriterFrame(j, s, step);
    hide DoWriter, WriterEnabled;
  }

  lemma WriterMain(j: Job, s: State, step: Step)
    requires ErrorKept(s) && MainEnabled(j, s, step)
    ensures ErrorKept(DoMain(j, s, step))
  {
    MainFrame(j, s, step);
    hide Finalized, InSize, Laid, Job.KeysBefore, Job.Capacity, AllExited;
  }

  lemma WriterWorker(j: Job, s: State, step: Step)
    requires ErrorKept(s) && Workers(s) && WorkerEnabled(j, s, step)
    ensures ErrorKept(DoWorker(j, s, step))
  {
    WorkerFrame(j, s, step);
    WorkerMoves(j, s, step);
    hide BuildBlock, TornFits, Job.Capacity;
  }

  lemma WriterWriter(j: Job, s: State, step: Step)
    requires ErrorKept(s) && WriterEnabled(j, s, step)
    ensures ErrorKept(DoWriter(j, s, step))
  {
    hide WriteMetadata, Laid;
  }

  lemma PoisonedMain(j: Job, s: State, step: Step)
    requires Inv(j, s) && MainEnabled(j, s, step)
    ensures Poisoned(j, DoMain(j, s, step))
  {
    hide Finalized, InSize, Laid, Job.KeysBefore, AllExited;
    var t := DoMain(j, s, step);
    if step == Dispatch && t.main.next == |j.blocks| {
      assert t.workChan[|s.workChan|].block == |j.blocks| - 1;
    }
  }

  lemma PoisonedWorker(j: Job, s: State, step: Step)
    requires Inv(j, s) && WorkerEnabled(j, s, step)
    ensures Poisoned(j, DoWorker(j, s, step))
  {
    WorkerFrame(j, s, step);
    if LastHeld(s.workChan, s.pool.workers, |j.blocks| - 1) && s.pool.cancelled {
      LastHeldWorker(j, s, step);
    }
    hide DoWorker, WorkerEnabled, Control, ErrorKept, Workers, LastHeld;
  }

  // The queued block moves to its worker; a worker that holds it can only give up.
  lemma LastHeldWorker(j: Job, s: State, step: Step)
    requires LastHeld(s.workChan, s.pool.workers, |j.blocks| - 1) && s.pool.cancelled && WorkerEnabled(j, s, step)
    ensures var t := DoWorker(j, s, step); LastHeld(t.workChan, t.pool.workers, |j.blocks| - 1)
  {
    WorkerMoves(j, s, step);
    hide DoWorker, WorkerEnabled;
    var t := DoWorker(j, s, step);
    if k :| 0 <= k < |s.workChan| && s.workChan[k].block == |j.blocks| - 1 {
      if step.Take? {
        if k == 0 {
          assert Doomed(t.pool.workers[step.i], |j.blocks| - 1);
        } else {
          assert t.workChan[k - 1] == s.workChan[k];
        }
      } else {
        assert t.workChan[k] == s.workChan[k];
      }
    } else {
      var i :| 0 <= i < |s.pool.workers| && Doomed(s.pool.workers[i], |j.blocks| - 1);
      assert Doomed(t.pool.workers[i], |j.blocks| - 1);
    }
  }

  lemma PoisonedWriter(j: Job, s: State, step: Step)
    requires Inv(j, s) && WriterEnabled(j, s, step)
    ensures Poisoned(j, DoWriter(j, s, step))
  {
    WriterFrame(j, s, step);
    hide DoWriter, WriterEnabled, Control, ErrorKept, Workers, LastHeld;
  }

  lemma CancelKeeps(j: Job, s: State)
    requires Inv(j, s)
    ensures Inv(j, s.(pool := s.pool.(parentDone := true, cancelled := true)))
  {
    hide Job.KeysBefore, Job.Capacity;
  }

  /** Every step of every goroutine keeps the invariant. */
  lemma StepKeeps(j: Job, s: State, step: Step)
    requires Inv(j, s) && Enabled(j, s, step)
    ensures Inv(j, Do(j, s, step))
  {
    hide Control, Workers, ErrorKept, Poisoned, MainEnabled, WorkerEnabled, WriterEnabled, DoMain, DoWorker, DoWriter;
    if MainEnabled(j, s, step) {
      ControlMain(j, s, step);
      WorkersMain(j, s, step);
      WriterMain(j, s, step);
      PoisonedMain(j, s, step);
    } else if WorkerEnabled(j, s, step) {
      ControlWorker(j, s, step);
      WorkersWorker(j, s, step);
      WriterWorker(j, s, step);
      PoisonedWorker(j, s, step);
    } else if WriterEnabled(j, s, step) {
      ControlWriter(j, s, step);
      WorkersWriter(j, s, step);
      WriterWriter(j, s, step);
      PoisonedWriter(j, s, step);
    } else {
      CancelKeeps(j, s);
    }
  }
}
