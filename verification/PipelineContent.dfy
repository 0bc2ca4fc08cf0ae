/** What the pipeline writes: every delivered block's payloads lie in their place, and the
    writer has committed the blocks in order. */
module PipelineContent {
  import opened Basics
  import opened Encoding
  import opened Files
  import opened IndexFormat
  import opened IndexWriter
  import opened Pipeline
  import opened PipelineControl
  import opened PipelineFlight

  // Block b is built and its payloads lie at their place in the payload region.
  ghost predicate Delivered(j: Job, file: seq<Byte>, b: nat) {
    && b < |j.blocks| && j.build(j.blocks[b]).Some?
    && var payloads := j.build(j.blocks[b]).value.payloads;
       && Has(file, j.PayloadAt(b), payloads)
       && (|payloads| > 0 ==> j.PayloadAt(b) + |payloads| <= j.c.MetadataRegionOffset())
  }

  // The message describes its block as built.
  ghost predicate Describes(j: Job, m: Message) {
    && m.block < |j.blocks| && j.build(j.blocks[m.block]).Some?
    && var b := j.build(j.blocks[m.block]).value;
       m.metadata == b.metadata && m.numKeys == b.numKeys && m.payloadHash == j.h(b.payloads)
  }

  ghost predicate GoodMessage(j: Job, file: seq<Byte>, m: Message) {
    m.failed || (Describes(j, m) && Delivered(j, file, m.block))
  }

  predicate GoodWork(j: Job, w: Work) {
    w.block < |j.blocks| && w.keysBefore == j.KeysBefore(w.block)
  }

  ghost predicate GoodWorker(j: Job, file: seq<Byte>, w: Worker) {
    (w.Holding? ==> GoodWork(j, w.work)) && (w.Sending? ==> GoodMessage(j, file, w.message))
  }

  ghost predicate Moving(j: Job, s: State) {
    && (forall k :: 0 <= k < |s.workChan| ==> GoodWork(j, s.workChan[k]))
    && (forall i :: 0 <= i < |s.pool.workers| ==> GoodWorker(j, s.writer.iw.file, s.pool.workers[i]))
    && (forall k :: 0 <= k < |s.results| ==> GoodMessage(j, s.writer.iw.file, s.results[k]))
  }

  // The blocks waiting for their turn, and the blocks written.
  ghost predicate Arrived(j: Job, w: WriterState) {
    && (forall b: nat :: b in w.pending ==> w.pending[b].block == b && !w.pending[b].failed && GoodMessage(j, w.iw.file, w.pending[b]))
    && w.iw.blockCount <= |j.blocks|
    && (forall b: nat :: b < w.iw.blockCount ==> Delivered(j, w.iw.file, b))
    && j.c.MetadataRegionOffset() <= w.iw.metadataWriteOffset
  }

  // Before an error, the index writer has committed the first blocks.
  ghost predicate Ordered(j: Job, w: WriterState) {
    !w.reported ==>
      && w.iw.blockCount <= |j.blocks| && j.AllBuild(w.iw.blockCount)
      && Committed(j.c, j.h, w.iw, j.Built(w.iw.blockCount))
  }

  ghost predicate Content(j: Job, s: State) {
    Moving(j, s) && Arrived(j, s.writer) && Ordered(j, s.writer)
  }

  lemma InitContent(j: Job, file: seq<Byte>)
    requires j.Valid()
    ensures Content(j, Init(j, file))
  {
    StartedCommitted(j.c, j.h, file);
    assert j.Built(0) == [];
    hide Committed;
  }

  // ---------- Where payloads go ----------

  lemma {:induction false} KeysBeforeMonotone(j: Job, a: nat, b: nat)
    requires a <= b <= |j.blocks|
    ensures j.KeysBefore(a) <= j.KeysBefore(b)
    decreases b
  {
    if a < b {
      KeysBeforeMonotone(j, a, b - 1);
    }
  }

  lemma PayloadEnds(j: Job, b: nat)
    requires j.Valid() && b < |j.blocks| && j.build(j.blocks[b]).Some?
    ensures j.PayloadAt(b) + |j.build(j.blocks[b]).value.payloads| == j.PayloadAt(b + 1)
  {
    assert j.Sized(b);
    PayloadOffsets(j.c, j.KeysBefore(b), |j.blocks[b]|);
    hide Config.PayloadOffset, Offset, Job.Sized;
    assert j.KeysBefore(b + 1) == j.KeysBefore(b) + |j.blocks[b]|;
    assert j.Sized(b);
    SizedIs(j, b);
  }

  lemma SizedIs(j: Job, b: nat)
    requires b < |j.blocks| && j.Sized(b) && j.build(j.blocks[b]).Some?
    ensures j.build(j.blocks[b]).value.numKeys == |j.blocks[b]|
    ensures |j.build(j.blocks[b]).value.payloads| == Offset(|j.blocks[b]|, j.c.EntrySize())
  {
  }

  /** The stretches of different blocks do not meet. */
  lemma PayloadsApart(j: Job, a: nat, b: nat)
    requires j.Valid() && a < |j.blocks| && b < |j.blocks| && a != b
    requires j.build(j.blocks[a]).Some? && j.build(j.blocks[b]).Some?
    ensures var n, m := |j.build(j.blocks[a]).value.payloads|, |j.build(j.blocks[b]).value.payloads|;
            j.PayloadAt(a) + n <= j.PayloadAt(b) || j.PayloadAt(b) + m <= j.PayloadAt(a)
  {
    PayloadEnds(j, a);
    PayloadEnds(j, b);
    if a < b {
      KeysBeforeMonotone(j, a + 1, b);
      PayloadOffsets(j.c, j.KeysBefore(a + 1), j.KeysBefore(b));
    } else {
      KeysBeforeMonotone(j, b + 1, a);
      PayloadOffsets(j.c, j.KeysBefore(b + 1), j.KeysBefore(a));
    }
    hide Config.PayloadOffset, Offset, Job.KeysBefore;
  }

  // What a build step writes to the file, if anything.
  lemma BuildWrites(j: Job, file: seq<Byte>, w: Work, fault: Fault)
    requires GoodWork(j, w) && TornFits(j, w.block, fault)
    ensures var (after, m) := BuildBlock(j, file, w, fault);
            var r := j.build(j.blocks[w.block]);
            && m.block == w.block
            && (after == file || (r.Some? && exists bytes :: WrittenWithin(j, file, after, w.block, bytes, |r.value.payloads|)))
            && (!m.failed ==> Describes(j, m) && (r.value.payloads == [] || (after == WriteAt(file, j.PayloadAt(w.block), r.value.payloads)
                                                   && j.PayloadAt(w.block) + |r.value.payloads| <= j.c.MetadataRegionOffset())))
  {
    hide WriteAt, Config.PayloadRegionOffset, Config.MetadataRegionOffset, Job.KeysBefore;
    PayloadOffsetIs(j.c, w.keysBefore);
    var r := j.build(j.blocks[w.block]);
    if r.Some? && |r.value.payloads| > 0 {
      var bytes := if fault.Some? then fault.value else r.value.payloads;
      var (after, m) := BuildBlock(j, file, w, fault);
      assert after == file || WrittenWithin(j, file, after, w.block, bytes, |r.value.payloads|);
    }
  }

  // `after` is `file` with `bytes` written within block b's stretch of the payload region.
  ghost predicate WrittenWithin(j: Job, file: seq<Byte>, after: seq<Byte>, b: nat, bytes: seq<Byte>, size: nat) {
    && b <= |j.blocks| && after == WriteAt(file, j.PayloadAt(b), bytes)
    && |bytes| <= size && j.PayloadAt(b) + size <= j.c.MetadataRegionOffset()
  }

  // Building one block leaves the others' payloads alone.
  lemma BuildKeepsOthers(j: Job, file: seq<Byte>, w: Work, fault: Fault, b: nat)
    requires j.Valid() && GoodWork(j, w) && TornFits(j, w.block, fault) && Delivered(j, file, b) && b != w.block
    ensures Delivered(j, BuildBlock(j, file, w, fault).0, b)
  {
    BuildWrites(j, file, w, fault);
    var after := BuildBlock(j, file, w, fault).0;
    hide WriteAt, BuildBlock, Has, Job.PayloadAt, Config.MetadataRegionOffset, TornFits;
    if after != file {
      var r := j.build(j.blocks[w.block]);
      var bytes :| WrittenWithin(j, file, after, w.block, bytes, |r.value.payloads|);
      PayloadsApart(j, b, w.block);
      WriteApart(file, j.PayloadAt(w.block), bytes, j.PayloadAt(b), j.build(j.blocks[b]).value.payloads);
    }
  }

  // A build that does not fail delivers its block.
  lemma BuildDelivers(j: Job, file: seq<Byte>, w: Work, fault: Fault)
    requires GoodWork(j, w) && TornFits(j, w.block, fault)
    ensures var (after, m) := BuildBlock(j, file, w, fault); m.block == w.block && GoodMessage(j, after, m)
  {
    BuildWrites(j, file, w, fault);
    var (after, m) := BuildBlock(j, file, w, fault);
    var r := j.build(j.blocks[w.block]);
    hide WriteAt, BuildBlock, TornFits, Job.PayloadAt, Config.MetadataRegionOffset;
    if !m.failed && r.value.payloads != [] {
      hide Has;
      WriteHas(file, j.PayloadAt(w.block), r.value.payloads);
    }
  }

  // Building leaves what the writer has committed alone.
  lemma BuildKeepsCommitted(j: Job, iw: Progress, bs: seq<Block>, w: Work, fault: Fault)
    requires GoodWork(j, w) && TornFits(j, w.block, fault) && Committed(j.c, j.h, iw, bs)
    ensures Committed(j.c, j.h, iw.(file := BuildBlock(j, iw.file, w, fault).0), bs)
  {
    BuildWrites(j, iw.file, w, fault);
    var after := BuildBlock(j, iw.file, w, fault).0;
    hide WriteAt, BuildBlock, Committed, Job.PayloadAt, Config.MetadataRegionOffset, TornFits;
    if after != iw.file {
      var r := j.build(j.blocks[w.block]);
      var bytes :| WrittenWithin(j, iw.file, after, w.block, bytes, |r.value.payloads|);
      MetadataStays(j.c, j.h, iw, bs, j.PayloadAt(w.block), bytes);
    } else {
      assert iw.(file := after) == iw;
    }
  }

  // ---------- Main ----------

  lemma DispatchedGood(j: Job, s: State, step: Step)
    requires Control(j, s) && MainEnabled(j, s, step)
    ensures step == Dispatch ==> GoodWork(j, Work(s.main.next, s.main.keysBefore))
  {
  }

  lemma DoneIsNoContent(j: Job, w: WriterState, done: bool)
    requires Arrived(j, w) && Ordered(j, w)
    ensures Arrived(j, w.(done := done)) && Ordered(j, w.(done := done))
  {
    hide Delivered, GoodMessage, Committed, Job.Built, Job.AllBuild, Config.MetadataRegionOffset;
  }

  lemma MovingMain(j: Job, s: State, step: Step)
    requires Moving(j, s) && Control(j, s) && MainEnabled(j, s, step)
    ensures Moving(j, DoMain(j, s, step))
  {
    MainFrame(j, s, step);
    WorkChanOf(j, s, step);
    DispatchedGood(j, s, step);
    hide DoMain, MainEnabled, GoodWork, GoodWorker, GoodMessage, Control;
  }

  lemma ContentMain(j: Job, s: State, step: Step)
    requires Content(j, s) && Control(j, s) && MainEnabled(j, s, step)
    ensures Content(j, DoMain(j, s, step))
  {
    MainFrame(j, s, step);
    MovingMain(j, s, step);
    DoneIsNoContent(j, s.writer, DoMain(j, s, step).writer.done);
    hide DoMain, MainEnabled, Moving, Arrived, Ordered, Control;
  }

  // ---------- Workers ----------

  // The file changes only by a build, and then the other blocks stay delivered.
  lemma FileKeeps(j: Job, s: State, step: Step, b: nat)
    requires j.Valid() && Content(j, s) && Flight(s) && WorkerEnabled(j, s, step)
    requires Delivered(j, s.writer.iw.file, b)
    requires step.Build? ==> b != s.pool.workers[step.i].work.block
    ensures Delivered(j, DoWorker(j, s, step).writer.iw.file, b)
  {
    FileOf(j, s, step);
    hide DoWorker, Delivered, BuildBlock;
    if step.Build? {
      assert GoodWorker(j, s.writer.iw.file, s.pool.workers[step.i]);
      BuildKeepsOthers(j, s.writer.iw.file, s.pool.workers[step.i].work, step.fault, b);
    }
  }

  lemma FileOf(j: Job, s: State, step: Step)
    requires WorkerEnabled(j, s, step)
    ensures var t := DoWorker(j, s, step);
            && (!step.Build? ==> t.writer == s.writer)
            && (step.Build? ==>
                  && var built := BuildBlock(j, s.writer.iw.file, s.pool.workers[step.i].work, step.fault);
                     t.writer == s.writer.(iw := s.writer.iw.(file := built.0))
                     && t.pool.workers == s.pool.workers[step.i := Sending(built.1)]
                     && t.workChan == s.workChan && t.results == s.results)
  {
    hide BuildBlock, TornFits;
  }

  // The block a worker is about to build is nowhere else.
  lemma BuiltIsAlone(s: State, i: nat, b: nat)
    requires Flight(s) && i < |s.pool.workers| && Carries(s.pool.workers[i], b)
    ensures b >= s.writer.iw.blockCount && b !in s.writer.pending
    ensures forall k :: 0 <= k < |s.results| ==> s.results[k].block != b
    ensures forall k :: 0 <= k < |s.pool.workers| && k != i ==> !Carries(s.pool.workers[k], b)
  {
    assert InFlight(s, b) <= One(s.writer.iw.blockCount <= b < s.main.next);
    WorkerIn(s.pool.workers, i, b);
    hide WorkerCount, MessageCount, WorkCount;
    forall k | 0 <= k < |s.results| ensures s.results[k].block != b {
      if s.results[k].block == b {
        MessageIn(s.results, k);
      }
    }
    forall k | 0 <= k < |s.pool.workers| && k != i ensures !Carries(s.pool.workers[k], b) {
      if Carries(s.pool.workers[k], b) {
        WorkersIn(s.pool.workers, i, k, b);
      }
    }
  }

  lemma MessageKeeps(j: Job, s: State, step: Step, m: Message)
    requires j.Valid() && Content(j, s) && Flight(s) && WorkerEnabled(j, s, step)
    requires GoodMessage(j, s.writer.iw.file, m)
    requires step.Build? ==> m.block != s.pool.workers[step.i].work.block
    ensures GoodMessage(j, DoWorker(j, s, step).writer.iw.file, m)
  {
    if !m.failed {
      hide DoWorker, WorkerEnabled, Delivered, Content, Flight;
      FileKeeps(j, s, step, m.block);
    }
  }

  lemma ArrivedWorker(j: Job, s: State, step: Step)
    requires j.Valid() && Content(j, s) && Flight(s) && WorkerEnabled(j, s, step)
    ensures Arrived(j, DoWorker(j, s, step).writer)
  {
    WorkerFrame(j, s, step);
    var t := DoWorker(j, s, step);
    if step.Build? {
      BuiltIsAlone(s, step.i, s.pool.workers[step.i].work.block);
    }
    hide DoWorker, GoodMessage, Delivered, Flight, Moving, Ordered;
    forall b: nat | b in s.writer.pending ensures GoodMessage(j, t.writer.iw.file, s.writer.pending[b]) {
      MessageKeeps(j, s, step, s.writer.pending[b]);
    }
    forall b: nat | b < s.writer.iw.blockCount ensures Delivered(j, t.writer.iw.file, b) {
      FileKeeps(j, s, step, b);
    }
  }

  lemma OrderedWorker(j: Job, s: State, step: Step)
    requires Content(j, s) && WorkerEnabled(j, s, step)
    ensures Ordered(j, DoWorker(j, s, step).writer)
  {
    FileOf(j, s, step);
    hide DoWorker, BuildBlock, Committed, Job.Built, Job.AllBuild;
    if step.Build? && !s.writer.reported {
      assert GoodWorker(j, s.writer.iw.file, s.pool.workers[step.i]);
      BuildKeepsCommitted(j, s.writer.iw, j.Built(s.writer.iw.blockCount), s.pool.workers[step.i].work, step.fault);
    }
  }

  lemma MovingBuild(j: Job, s: State, i: nat, fault: Fault)
    requires j.Valid() && Content(j, s) && Flight(s) && WorkerEnabled(j, s, Step.Build(i, fault))
    ensures Moving(j, DoWorker(j, s, Step.Build(i, fault)))
  {
    var step := Step.Build(i, fault);
    var t := DoWorker(j, s, step);
    var work := s.pool.workers[i].work;
    FileOf(j, s, step);
    BuiltIsAlone(s, i, work.block);
    assert GoodWorker(j, s.writer.iw.file, s.pool.workers[i]);
    BuildDelivers(j, s.writer.iw.file, work, fault);
    hide DoWorker, GoodMessage, Flight, Arrived, Ordered, BuildBlock;
    forall k | 0 <= k < |s.results| ensures GoodMessage(j, t.writer.iw.file, s.results[k]) {
      MessageKeeps(j, s, step, s.results[k]);
    }
    forall k | 0 <= k < |s.pool.workers| && k != i ensures GoodWorker(j, t.writer.iw.file, s.pool.workers[k]) {
      assert GoodWorker(j, s.writer.iw.file, s.pool.workers[k]);
      if s.pool.workers[k].Sending? {
        assert !Carries(s.pool.workers[k], work.block);
        MessageKeeps(j, s, step, s.pool.workers[k].message);
      }
    }
  }

  lemma MovingWorker(j: Job, s: State, step: Step)
    requires Moving(j, s) && WorkerEnabled(j, s, step) && !step.Build?
    ensures Moving(j, DoWorker(j, s, step))
  {
    WorkerMoves(j, s, step);
    WorkerResults(j, s, step);
    FileOf(j, s, step);
    ToReady(j, s, step);
    hide DoWorker, GoodMessage, GoodWork;
    var t, i := DoWorker(j, s, step), WorkerOf(step);
    assert GoodWorker(j, s.writer.iw.file, s.pool.workers[i]);
  }

  lemma ToReady(j: Job, s: State, step: Step)
    requires WorkerEnabled(j, s, step) && !step.Build?
    ensures var t, i := DoWorker(j, s, step), WorkerOf(step);
            0 <= i < |t.pool.workers| && !t.pool.workers[i].Sending? && (t.pool.workers[i].Holding? ==> step.Take? || step.Check?)
  {
  }

  lemma ContentWorker(j: Job, s: State, step: Step)
    requires j.Valid() && Content(j, s) && Flight(s) && WorkerEnabled(j, s, step)
    ensures Content(j, DoWorker(j, s, step))
  {
    ArrivedWorker(j, s, step);
    OrderedWorker(j, s, step);
    if step.Build? {
      MovingBuild(j, s, step.i, step.fault);
    } else {
      MovingWorker(j, s, step);
    }
  }

  // ---------- The writer ----------

  // Writing metadata disturbs no payloads.
  lemma MetadataKeeps(j: Job, file: seq<Byte>, at: nat, bytes: seq<Byte>, b: nat)
    requires Delivered(j, file, b) && j.c.MetadataRegionOffset() <= at
    ensures Delivered(j, WriteAt(file, at, bytes), b)
  {
    var payloads := j.build(j.blocks[b]).value.payloads;
    hide WriteAt, Job.PayloadAt, Config.MetadataRegionOffset;
    if |payloads| > 0 {
      WriteApart(file, at, bytes, j.PayloadAt(b), payloads);
    }
  }

  lemma EmitFile(j: Job, w: WriterState, fault: Fault)
    requires NextPending(w) && Laid(j, w.iw)
    ensures var e := Emit1(j, w, fault);
            && w.iw.metadataWriteOffset <= e.iw.metadataWriteOffset
            && (e.iw.file == w.iw.file || exists bytes :: e.iw.file == WriteAt(w.iw.file, w.iw.metadataWriteOffset, bytes))
  {
    hide WriteAt, Config.MetadataRegionOffset;
  }

  lemma EmitKeeps(j: Job, w: WriterState, fault: Fault, b: nat)
    requires NextPending(w) && Laid(j, w.iw) && Delivered(j, w.iw.file, b)
    ensures Delivered(j, Emit1(j, w, fault).iw.file, b)
  {
    EmitFile(j, w, fault);
    hide Emit1, Delivered, WriteAt;
    var e := Emit1(j, w, fault);
    if e.iw.file != w.iw.file {
      var bytes :| e.iw.file == WriteAt(w.iw.file, w.iw.metadataWriteOffset, bytes);
      MetadataKeeps(j, w.iw.file, w.iw.metadataWriteOffset, bytes, b);
    }
  }

  // An emission without an error is the one the index writer's lemmas speak of.
  lemma EmitSucceeds(j: Job, w: WriterState, fault: Fault)
    requires NextPending(w) && Laid(j, w.iw) && !Emit1(j, w, fault).reported
    ensures var m := w.pending[w.iw.blockCount];
            && Emit1(j, w, fault).iw == WriteMetadata(j.c, Fold(w.iw, m.payloadHash), m.metadata, m.numKeys, None).0
            && Emit1(j, w, fault).iw.blockCount == w.iw.blockCount + 1 && !w.reported
  {
    hide WriteAt, Config.MetadataRegionOffset;
  }

  lemma BuiltNext(j: Job, n: nat)
    requires n < |j.blocks| && j.AllBuild(n) && j.build(j.blocks[n]).Some?
    ensures j.AllBuild(n + 1) && j.Built(n + 1) == j.Built(n) + [j.build(j.blocks[n]).value]
  {
  }

  lemma OrderedEmit(j: Job, w: WriterState, fault: Fault)
    requires Arrived(j, w) && Ordered(j, w) && NextPending(w) && Laid(j, w.iw)
    ensures Ordered(j, Emit1(j, w, fault))
  {
    var e := Emit1(j, w, fault);
    if !e.reported {
      EmitSucceeds(j, w, fault);
      var n := w.iw.blockCount;
      assert GoodMessage(j, w.iw.file, w.pending[n]) && !w.pending[n].failed && w.pending[n].block == n;
      BuiltNext(j, n);
      EmitCommits(j.c, j.h, w.iw, j.Built(n), j.build(j.blocks[n]).value);
      hide Emit1, Committed, WriteMetadata, Delivered, Job.Built, Config.MetadataRegionOffset, Laid, Fold;
    }
  }

  lemma ArrivedEmit(j: Job, w: WriterState, fault: Fault)
    requires Arrived(j, w) && NextPending(w) && Laid(j, w.iw)
    ensures Arrived(j, Emit1(j, w, fault))
  {
    var e := Emit1(j, w, fault);
    EmitFields(j, w, fault);
    EmitFile(j, w, fault);
    var n := w.iw.blockCount;
    assert GoodMessage(j, w.iw.file, w.pending[n]) && !w.pending[n].failed && w.pending[n].block == n;
    assert Delivered(j, w.iw.file, n) by { hide Delivered; }
    assert n < |j.blocks|;
    hide Emit1, Delivered, Laid, Config.MetadataRegionOffset;
    forall b: nat | b in e.pending ensures GoodMessage(j, e.iw.file, e.pending[b]) {
      assert GoodMessage(j, w.iw.file, w.pending[b]);
      EmitKeeps(j, w, fault, b);
    }
    forall b: nat | b < e.iw.blockCount ensures Delivered(j, e.iw.file, b) {
      assert Delivered(j, w.iw.file, b);
      EmitKeeps(j, w, fault, b);
    }
  }

  lemma MovingEmit(j: Job, s: State, fault: Fault)
    requires Moving(j, s) && NextPending(s.writer) && Laid(j, s.writer.iw)
    ensures Moving(j, s.(writer := Emit1(j, s.writer, fault)))
  {
    hide Emit1, Delivered, Laid, Describes, NextPending;
    var file := Emit1(j, s.writer, fault).iw.file;
    forall i | 0 <= i < |s.pool.workers| ensures GoodWorker(j, file, s.pool.workers[i]) {
      assert GoodWorker(j, s.writer.iw.file, s.pool.workers[i]);
      if s.pool.workers[i].Sending? && !s.pool.workers[i].message.failed {
        EmitKeeps(j, s.writer, fault, s.pool.workers[i].message.block);
      }
    }
    forall k | 0 <= k < |s.results| ensures GoodMessage(j, file, s.results[k]) {
      assert GoodMessage(j, s.writer.iw.file, s.results[k]);
      if !s.results[k].failed {
        EmitKeeps(j, s.writer, fault, s.results[k].block);
      }
    }
  }

  lemma ReceiveContent(j: Job, s: State)
    requires Content(j, s) && |s.results| > 0
    ensures Content(j, s.(results := s.results[1..], writer := Receive1(s.writer, s.results[0])))
  {
    hide GoodWork, GoodWorker, Delivered, Describes, Committed, Job.Built, Job.AllBuild, Config.MetadataRegionOffset;
    assert GoodMessage(j, s.writer.iw.file, s.results[0]);
  }

  lemma ContentWriter(j: Job, s: State, step: Step)
    requires Content(j, s) && WriterEnabled(j, s, step)
    ensures Content(j, DoWriter(j, s, step))
  {
    match step {
      case Receive =>
        ReceiveContent(j, s);
      case Emit(fault) =>
        OrderedEmit(j, s.writer, fault);
        ArrivedEmit(j, s.writer, fault);
        MovingEmit(j, s, fault);
        hide Emit1, Ordered, Arrived, Moving;
      case _ =>
        hide GoodWork, GoodWorker, GoodMessage, Delivered, Committed, Job.Built, Job.AllBuild, Config.MetadataRegionOffset;
    }
  }
}
