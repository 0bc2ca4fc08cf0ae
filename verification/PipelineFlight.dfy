/** Where the blocks are: every dispatched block that is not yet written is in one place. */
module PipelineFlight {
  import opened Basics
  import opened IndexWriter
  import opened Pipeline
  import opened PipelineControl

  function One(c: bool): nat { if c then 1 else 0 }

  // How often block b is queued for the workers, at a worker, queued for the writer, waiting
  // for its turn.
  function WorkCount(ws: seq<Work>, b: nat): nat {
    if |ws| == 0 then 0 else One(ws[0].block == b) + WorkCount(ws[1..], b)
  }

  function Carries(w: Worker, b: nat): bool {
    (w.Holding? && w.work.block == b) || (w.Sending? && w.message.block == b)
  }

  function WorkerCount(ws: seq<Worker>, b: nat): nat {
    if |ws| == 0 then 0 else One(Carries(ws[0], b)) + WorkerCount(ws[1..], b)
  }

  function MessageCount(ms: seq<Message>, b: nat): nat {
    if |ms| == 0 then 0 else One(ms[0].block == b) + MessageCount(ms[1..], b)
  }

  ghost function InFlight(s: State, b: nat): nat {
    WorkCount(s.workChan, b) + WorkerCount(s.pool.workers, b) + MessageCount(s.results, b) + One(b in s.writer.pending)
  }

  lemma {:induction false} WorkAppend(ws: seq<Work>, w: Work, b: nat)
    ensures WorkCount(ws + [w], b) == WorkCount(ws, b) + One(w.block == b)
  {
    if |ws| > 0 {
      WorkAppend(ws[1..], w, b);
      assert (ws + [w])[1..] == ws[1..] + [w];
    }
  }

  lemma {:induction false} MessageAppend(ms: seq<Message>, m: Message, b: nat)
    ensures MessageCount(ms + [m], b) == MessageCount(ms, b) + One(m.block == b)
  {
    if |ms| > 0 {
      MessageAppend(ms[1..], m, b);
      assert (ms + [m])[1..] == ms[1..] + [m];
    }
  }

  lemma {:induction false} WorkerSet(ws: seq<Worker>, i: nat, w: Worker, b: nat)
    requires i < |ws|
    ensures WorkerCount(ws[i := w], b) + One(Carries(ws[i], b)) == WorkerCount(ws, b) + One(Carries(w, b))
  {
    if i == 0 {
      assert ws[0 := w][1..] == ws[1..];
    } else {
      WorkerSet(ws[1..], i - 1, w, b);
      assert ws[i := w][1..] == ws[1..][i - 1 := w];
    }
  }

  lemma {:induction false} WorkIn(ws: seq<Work>, k: nat)
    requires k < |ws|
    ensures WorkCount(ws, ws[k].block) > 0
  {
    if k > 0 {
      WorkIn(ws[1..], k - 1);
    }
  }

  lemma {:induction false} MessageIn(ms: seq<Message>, k: nat)
    requires k < |ms|
    ensures MessageCount(ms, ms[k].block) > 0
  {
    if k > 0 {
      MessageIn(ms[1..], k - 1);
    }
  }

  lemma WorkerIn(ws: seq<Worker>, i: nat, b: nat)
    requires i < |ws| && Carries(ws[i], b)
    ensures WorkerCount(ws, b) > 0
  {
    WorkerSet(ws, i, Ready, b);
  }

  lemma WorkersIn(ws: seq<Worker>, i: nat, k: nat, b: nat)
    requires i < |ws| && k < |ws| && i != k && Carries(ws[i], b) && Carries(ws[k], b)
    ensures WorkerCount(ws, b) > 1
  {
    WorkerSet(ws, i, Ready, b);
    WorkerIn(ws[i := Ready], k, b);
  }

  predicate Fine(w: Worker) { w != Failing && w != Exited(true) }

  // Nothing has gone wrong that could lose a block.
  ghost predicate Healthy(s: State) {
    && !s.main.dropped && !s.writer.reported
    && s.main.phase != Stopped && !s.main.phase.Returned?
    && forall i :: 0 <= i < |s.pool.workers| ==> Fine(s.pool.workers[i])
  }

  /** No block is in two places, and blocks written or not dispatched are in none; while
      nothing went wrong, every other block is in its place. */
  ghost predicate Flight(s: State) {
    && s.writer.iw.blockCount <= s.main.next
    && (forall b: nat :: InFlight(s, b) <= One(s.writer.iw.blockCount <= b < s.main.next))
    && (Healthy(s) ==> forall b: nat :: InFlight(s, b) == One(s.writer.iw.blockCount <= b < s.main.next))
  }

  lemma InitFlight(j: Job, file: seq<Byte>)
    ensures Flight(Init(j, file))
  {
    forall b: nat ensures InFlight(Init(j, file), b) == 0 { NoneHeld(Init(j, file).pool.workers, b); }
  }

  lemma {:induction false} NoneHeld(ws: seq<Worker>, b: nat)
    requires forall i :: 0 <= i < |ws| ==> ws[i] == Starting
    ensures WorkerCount(ws, b) == 0
  {
    if |ws| > 0 {
      NoneHeld(ws[1..], b);
    }
  }

  // ---------- Main ----------

  lemma MainFlow(j: Job, s: State, step: Step, b: nat)
    requires MainEnabled(j, s, step)
    ensures var t := DoMain(j, s, step);
            && (step == Dispatch ==> InFlight(t, b) == InFlight(s, b) + One(b == s.main.next))
            && (step != Dispatch ==> InFlight(t, b) <= InFlight(s, b) && (Healthy(t) ==> InFlight(t, b) == InFlight(s, b)))
  {
    MainFrame(j, s, step);
    WorkAppend(s.workChan, Work(s.main.next, s.main.keysBefore), b);
    WorkChanOf(j, s, step);
    hide DoMain, MainEnabled, MessageCount, WorkerCount;
  }

  lemma WorkChanOf(j: Job, s: State, step: Step)
    requires MainEnabled(j, s, step)
    ensures var t := DoMain(j, s, step);
            && (step == Dispatch ==> t.workChan == s.workChan + [Work(s.main.next, s.main.keysBefore)])
            && (step != Dispatch ==> t.workChan == s.workChan || (t.workChan == [] && t.main.phase == Stopped))
  {
    hide Finalized, InSize, Laid, Job.KeysBefore, Job.Capacity, AllExited;
  }

  lemma NextOf(j: Job, s: State, step: Step)
    requires MainEnabled(j, s, step)
    ensures var t := DoMain(j, s, step);
            && t.main.next == s.main.next + One(step == Dispatch || step == DispatchCancelled || step == DispatchReported)
            && (step == DispatchCancelled || step == DispatchReported || s.main.dropped ==> t.main.dropped)
            && (s.main.phase == Stopped || s.main.phase.Returned? ==> t.main.phase.Returned?)
  {
    hide Finalized, InSize, Laid, Job.KeysBefore, Job.Capacity, AllExited;
  }

  lemma FlightMain(j: Job, s: State, step: Step)
    requires Flight(s) && MainEnabled(j, s, step)
    ensures Flight(DoMain(j, s, step))
  {
    MainFrame(j, s, step);
    NextOf(j, s, step);
    var t := DoMain(j, s, step);
    assert Healthy(t) ==> Healthy(s) by { hide DoMain, MainEnabled; }
    forall b: nat
      ensures InFlight(t, b) <= One(t.writer.iw.blockCount <= b < t.main.next)
      ensures Healthy(t) ==> InFlight(t, b) == One(t.writer.iw.blockCount <= b < t.main.next)
    {
      MainFlow(j, s, step, b);
      hide DoMain, MainEnabled, InFlight, Healthy;
      assert InFlight(s, b) <= One(s.writer.iw.blockCount <= b < s.main.next);
    }
  }

  // ---------- Workers ----------

  predicate Drops(step: Step) { step.Abandon? || step.SendCancelled? }

  lemma WorkerResults(j: Job, s: State, step: Step)
    requires WorkerEnabled(j, s, step)
    ensures var t, i, workers := DoWorker(j, s, step), WorkerOf(step), s.pool.workers;
            && 0 <= i < |workers| == |t.pool.workers|
            && (step.Send? ==> workers[i].Sending? && t.results == s.results + [workers[i].message] && !t.pool.workers[i].Sending?
                               && !t.pool.workers[i].Holding?)
            && (!step.Send? ==> t.results == s.results)
            && (step.Take? ==> workers[i] == Ready)
            && (step.Check? ==> workers[i].Holding? && t.pool.workers[i] == Holding(workers[i].work, true))
            && (step.Build? ==> workers[i].Holding? && t.pool.workers[i].Sending?
                                && t.pool.workers[i].message.block == workers[i].work.block)
            && (Drops(step) ==> t.pool.workers[i] == Failing)
            && (step.Start? || step.Exit? || step.Leave? ==> (forall b: nat :: !Carries(workers[i], b) && !Carries(t.pool.workers[i], b)))
            && t.writer.pending == s.writer.pending
  {
    hide WritePayloads, TornFits, Job.Capacity;
  }

  lemma WorkerFlow(j: Job, s: State, step: Step, b: nat)
    requires WorkerEnabled(j, s, step)
    ensures var t := DoWorker(j, s, step);
            && InFlight(t, b) <= InFlight(s, b)
            && (!Drops(step) ==> InFlight(t, b) == InFlight(s, b))
  {
    var t, i := DoWorker(j, s, step), WorkerOf(step);
    WorkerMoves(j, s, step);
    WorkerResults(j, s, step);
    WorkerSet(s.pool.workers, i, t.pool.workers[i], b);
    if step.Send? {
      MessageAppend(s.results, s.pool.workers[i].message, b);
    }
    hide DoWorker, WorkerEnabled, WorkerCount, MessageCount;
  }

  lemma FlightWorker(j: Job, s: State, step: Step)
    requires Flight(s) && WorkerEnabled(j, s, step)
    ensures Flight(DoWorker(j, s, step))
  {
    WorkerFrame(j, s, step);
    var t := DoWorker(j, s, step);
    if Healthy(t) {
      HealthyBefore(j, s, step);
    }
    forall b: nat
      ensures InFlight(t, b) <= One(t.writer.iw.blockCount <= b < t.main.next)
      ensures Healthy(t) ==> InFlight(t, b) == One(t.writer.iw.blockCount <= b < t.main.next)
    {
      WorkerFlow(j, s, step, b);
      hide DoWorker, WorkerEnabled, InFlight, Healthy;
      assert InFlight(s, b) <= One(s.writer.iw.blockCount <= b < s.main.next);
    }
  }

  lemma HealthyBefore(j: Job, s: State, step: Step)
    requires WorkerEnabled(j, s, step) && Healthy(DoWorker(j, s, step))
    ensures Healthy(s) && !Drops(step)
  {
    WorkerFrame(j, s, step);
    WorkerMoves(j, s, step);
    WorkerResults(j, s, step);
    hide DoWorker, WorkerEnabled;
    var t := DoWorker(j, s, step);
    assert Fine(t.pool.workers[WorkerOf(step)]);
    forall k | 0 <= k < |s.pool.workers| ensures Fine(s.pool.workers[k]) {
      assert Fine(t.pool.workers[k]);
    }
  }

  // ---------- The writer ----------

  lemma EmitFields(j: Job, w: WriterState, fault: Fault)
    requires NextPending(w) && Laid(j, w.iw)
    ensures var e := Emit1(j, w, fault);
            && e.pending == w.pending - {w.iw.blockCount}
            && (e.reported ==> e.iw.blockCount == w.iw.blockCount || w.reported)
            && (!e.reported ==> e.iw.blockCount == w.iw.blockCount + 1 && !w.reported)
            && w.iw.blockCount <= e.iw.blockCount <= w.iw.blockCount + 1
  {
    hide Laid, Config.MetadataRegionOffset;
  }

  // The queued message's block is not yet among the waiting ones.
  lemma ReceivedIsNew(s: State)
    requires Flight(s) && |s.results| > 0
    ensures s.results[0].block !in s.writer.pending
  {
    var b := s.results[0].block;
    assert InFlight(s, b) <= 1;
    MessageIn(s.results, 0);
  }

  lemma WriterFlow(j: Job, s: State, step: Step, b: nat)
    requires Flight(s) && WriterEnabled(j, s, step)
    ensures var t := DoWriter(j, s, step);
            && InFlight(t, b) <= InFlight(s, b)
            && (!step.Emit? ==> t.writer.iw == s.writer.iw && (!t.writer.reported ==> InFlight(t, b) == InFlight(s, b)))
            && (step.Emit? ==> InFlight(t, b) == InFlight(s, b) - One(b == s.writer.iw.blockCount))
            && (!t.writer.reported ==> !s.writer.reported)
  {
    if step.Receive? {
      ReceivedIsNew(s);
    }
    hide WriteMetadata, Laid, WorkCount, WorkerCount, Flight;
  }

  lemma EmittedBlock(s: State)
    requires Flight(s) && NextPending(s.writer)
    ensures s.writer.iw.blockCount < s.main.next
  {
    assert InFlight(s, s.writer.iw.blockCount) <= One(s.writer.iw.blockCount < s.main.next);
  }

  lemma FlightWriter(j: Job, s: State, step: Step)
    requires Flight(s) && WriterEnabled(j, s, step)
    ensures Flight(DoWriter(j, s, step))
  {
    WriterFrame(j, s, step);
    var t := DoWriter(j, s, step);
    if step.Emit? {
      EmittedBlock(s);
      EmitFields(j, s.writer, step.metadataFault);
      assert t.writer == Emit1(j, s.writer, step.metadataFault);
    }
    WriterFlow(j, s, step, 0);
    assert Healthy(t) ==> Healthy(s) by { hide DoWriter, WriterEnabled; }
    forall b: nat
      ensures InFlight(t, b) <= One(t.writer.iw.blockCount <= b < t.main.next)
      ensures Healthy(t) ==> InFlight(t, b) == One(t.writer.iw.blockCount <= b < t.main.next)
    {
      WriterFlow(j, s, step, b);
      hide DoWriter, WriterEnabled, InFlight, Healthy, Emit1;
      assert InFlight(s, b) <= One(s.writer.iw.blockCount <= b < s.main.next);
    }
  }
}
