/** The parallel build as a whole: every run ends, with every goroutine gone; a run that
    succeeds has written exactly the index of the blocks; and only a failure makes one fail. */
module PipelineResult {
  import opened Basics
  import opened LittleEndian
  import opened Encoding
  import opened Files
  import opened IndexFormat
  import opened IndexWriter
  import opened Pipeline
  import opened PipelineControl
  import opened PipelineFlight
  import opened PipelineContent

  // What Finish returning no error means.
  ghost predicate Published(j: Job, s: State) {
    s.main.phase == Returned(true) ==>
      && !s.pool.groupFailed && !s.writer.reported && !s.main.dropped
      && s.writer.iw.blockCount == |j.blocks| && j.AllBuild(|j.blocks|) && j.KeysBefore(|j.blocks|) == j.c.totalKeys
      && j.c.Valid() && s.main.published == IndexBytes(j.c, j.h, j.Built(|j.blocks|))
  }

  ghost predicate Sound(j: Job, s: State) {
    Inv(j, s) && Flight(s) && Content(j, s) && Published(j, s)
  }

  // ---------- A successful drain has everything ----------

  lemma {:induction false} NoWorkerCarries(ws: seq<Worker>, b: nat)
    requires forall i :: 0 <= i < |ws| ==> ws[i].Exited?
    ensures WorkerCount(ws, b) == 0
  {
    if |ws| > 0 {
      NoWorkerCarries(ws[1..], b);
    }
  }

  lemma AllLeft(j: Job, s: State)
    requires j.Valid() && Inv(j, s) && s.main.phase == Draining
    ensures s.workChan == [] && !s.main.dropped && forall i :: 0 <= i < |s.pool.workers| ==> s.pool.workers[i] == Exited(false)
  {
    forall i | 0 <= i < |s.pool.workers| ensures s.pool.workers[i] == Exited(false) {
      assert s.pool.workers[i].Exited? && s.pool.workers[i] != Exited(true);
    }
    assert s.pool.workers[0] == Exited(false);
    assert !LastHeld(s.workChan, s.pool.workers, |j.blocks| - 1);
  }

  lemma AllWritten(j: Job, s: State)
    requires j.Valid() && Inv(j, s) && Flight(s) && s.main.phase == Draining && !s.writer.done && WriterDoneReadable(s.writer)
    ensures !s.writer.reported && !s.main.dropped && s.writer.iw.blockCount == |j.blocks| == s.main.next
  {
    AllLeft(j, s);
    assert s.results == [] && !NextPending(s.writer);
    var b := s.writer.iw.blockCount;
    NoWorkerCarries(s.pool.workers, b);
    assert Healthy(s);
    assert InFlight(s, b) == One(b < s.main.next);
  }

  lemma {:induction false} KeysOfBuilt(j: Job, n: nat)
    requires j.Valid() && n <= |j.blocks| && j.AllBuild(n)
    ensures Keys(j.Built(n)) == j.KeysBefore(n)
  {
    if n > 0 {
      KeysOfBuilt(j, n - 1);
      BuiltNext(j, n - 1);
      PrefixOf(j.Built(n - 1), j.build(j.blocks[n - 1]).value);
      assert j.Sized(n - 1);
      SizedIs(j, n - 1);
      hide Keys, Job.Built, Metadata, RAMIndex;
    }
  }

  lemma BuiltPrefix(j: Job, n: nat, i: nat)
    requires i <= n <= |j.blocks| && j.AllBuild(n)
    ensures j.AllBuild(i) && j.Built(n)[..i] == j.Built(i)
  {
  }

  // All blocks built and delivered, the payload region is theirs.
  lemma DeliveredAll(j: Job, file: seq<Byte>)
    requires j.Valid() && j.AllBuild(|j.blocks|) && j.KeysBefore(|j.blocks|) == j.c.totalKeys
    requires forall b: nat :: b < |j.blocks| ==> Delivered(j, file, b)
    ensures Complete(j.c, j.Built(|j.blocks|)) && PayloadsAt(j.c, file, j.Built(|j.blocks|))
  {
    var n := |j.blocks|;
    var bs := j.Built(n);
    KeysOfBuilt(j, n);
    forall i | 0 <= i < n
      ensures |bs[i].payloads| == Offset(bs[i].numKeys, j.c.EntrySize())
      ensures Has(file, j.c.PayloadOffset(Keys(bs[..i])), bs[i].payloads)
    {
      assert j.Sized(i);
      SizedIs(j, i);
      BuiltPrefix(j, n, i);
      KeysOfBuilt(j, i);
      assert Delivered(j, file, i);
      hide Has, Keys, Offset, Config.PayloadOffset;
    }
  }

  lemma SuccessPublishes(j: Job, s: State, io: bool)
    requires j.Valid() && Sound(j, s) && MainEnabled(j, s, Conclude(io)) && s.main.phase == Draining && !s.writer.done
    ensures j.AllBuild(|j.blocks|) && j.c.MetadataRegionOffset() <= s.writer.iw.metadataWriteOffset
    ensures Finalized(j.c, j.h, s.writer.iw) == IndexBytes(j.c, j.h, j.Built(|j.blocks|))
  {
    AllWritten(j, s);
    assert !s.writer.reported;
    assert forall b: nat :: b < |j.blocks| ==> Delivered(j, s.writer.iw.file, b);
    hide Delivered, Flight, Moving, Finalized, IndexBytes, Config.Valid, Committed, Config.MetadataRegionOffset;
    DeliveredAll(j, s.writer.iw.file);
    FinalizedIsIndex(j.c, j.h, s.writer.iw, j.Built(|j.blocks|));
  }

  lemma PublishedMain(j: Job, s: State, step: Step)
    requires j.Valid() && Sound(j, s) && MainEnabled(j, s, step)
    ensures Published(j, DoMain(j, s, step))
  {
    MainFrame(j, s, step);
    if step.Conclude? && s.main.phase == Draining && !s.writer.done {
      SuccessPublishes(j, s, step.io);
      AllWritten(j, s);
    }
    ReturnsOnce(j, s, step);
    hide Finalized, IndexBytes, Flight, Content, Job.KeysBefore, Job.Built, Job.AllBuild, InSize, Laid, AllExited, Job.Capacity,
      Workers, ErrorKept, Poisoned;
  }

  lemma ReturnsOnce(j: Job, s: State, step: Step)
    requires MainEnabled(j, s, step)
    ensures !s.main.phase.Returned?
    ensures DoMain(j, s, step).main.phase == Returned(true) ==>
              step.Conclude? && s.main.phase == Draining && !s.writer.done && DoMain(j, s, step).writer == s.writer
              && DoMain(j, s, step).main == s.main.(phase := Returned(true), published := Finalized(j.c, j.h, s.writer.iw))
  {
    hide Finalized, InSize, Job.KeysBefore, Job.Capacity, AllExited;
  }

  lemma PublishedSame(j: Job, s: State, t: State)
    requires Published(j, s) && t.main == s.main
    requires s.main.phase.Returned? ==>
               && t.pool.groupFailed == s.pool.groupFailed && t.writer.reported == s.writer.reported
               && t.writer.iw.blockCount == s.writer.iw.blockCount
    ensures Published(j, t)
  {
    hide IndexBytes, Job.KeysBefore, Job.Built, Job.AllBuild, Config.Valid;
  }

  lemma PublishedWorker(j: Job, s: State, step: Step)
    requires Sound(j, s) && WorkerEnabled(j, s, step)
    ensures Published(j, DoWorker(j, s, step))
  {
    WorkerFrame(j, s, step);
    WorkerMoves(j, s, step);
    hide WorkerEnabled, DoWorker, Published, Flight, Content, Poisoned, Control, ErrorKept;
    PublishedSame(j, s, DoWorker(j, s, step));
  }

  lemma PublishedWriter(j: Job, s: State, step: Step)
    requires Sound(j, s) && WriterEnabled(j, s, step)
    ensures Published(j, DoWriter(j, s, step))
  {
    WriterFrame(j, s, step);
    if s.main.phase.Returned? {
      assert ErrorKept(s);
      WriterIdle(j, s, step);
    }
    hide WriterEnabled, DoWriter, Published, Flight, Content, Poisoned, Control, ErrorKept, Workers;
    PublishedSame(j, s, DoWriter(j, s, step));
  }

  lemma SoundCancel(j: Job, s: State)
    requires Sound(j, s)
    ensures Sound(j, s.(pool := s.pool.(parentDone := true, cancelled := true)))
  {
    var t := s.(pool := s.pool.(parentDone := true, cancelled := true));
    CancelKeeps(j, s);
    assert Flight(t) by { hide WorkCount, WorkerCount, MessageCount, Inv, Content; assert forall b: nat :: InFlight(t, b) == InFlight(s, b); }
    assert Content(j, t) by { hide GoodMessage, GoodWorker, GoodWork, Inv, Flight, Arrived, Ordered, Published; }
    hide *;
    PublishedCancel(j, s);
  }

  lemma PublishedCancel(j: Job, s: State)
    requires Published(j, s)
    ensures Published(j, s.(pool := s.pool.(parentDone := true, cancelled := true)))
  {
    hide Published;
    PublishedSame(j, s, s.(pool := s.pool.(parentDone := true, cancelled := true)));
  }

  lemma WriterIdle(j: Job, s: State, step: Step)
    requires WriterEnabled(j, s, step) && s.writer.phase != Running
    ensures DoWriter(j, s, step).writer.iw == s.writer.iw && DoWriter(j, s, step).writer.reported == s.writer.reported
  {
  }

  lemma InitSound(j: Job, file: seq<Byte>)
    requires j.Valid()
    ensures Sound(j, Init(j, file))
  {
    InitInv(j, file);
    InitFlight(j, file);
    InitContent(j, file);
    hide Inv, Flight, Content;
  }

  /** Every step of every goroutine keeps all of it. */
  lemma SoundKeeps(j: Job, s: State, step: Step)
    requires j.Valid() && Sound(j, s) && Enabled(j, s, step)
    ensures Sound(j, Do(j, s, step))
  {
    StepKeeps(j, s, step);
    hide Inv, Flight, Content, Published, MainEnabled, WorkerEnabled, WriterEnabled, DoMain, DoWorker, DoWriter;
    if MainEnabled(j, s, step) {
      InvControl(j, s);
      FlightMain(j, s, step);
      ContentMain(j, s, step);
      PublishedMain(j, s, step);
    } else if WorkerEnabled(j, s, step) {
      FlightWorker(j, s, step);
      ContentWorker(j, s, step);
      PublishedWorker(j, s, step);
    } else if WriterEnabled(j, s, step) {
      FlightWriter(j, s, step);
      ContentWriter(j, s, step);
      PublishedWriter(j, s, step);
    } else {
      SoundCancel(j, s);
    }
  }

  lemma InvControl(j: Job, s: State)
    requires Inv(j, s)
    ensures Control(j, s)
  {
  }
}
