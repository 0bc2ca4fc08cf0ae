/** The parallel build: a dispatcher, workers and a reordering writer over bounded channels,
    as steps on one state. */
module Pipeline {
  import opened Basics
  import opened Encoding
  import opened Files
  import opened IndexFormat
  import opened IndexWriter
  import opened Routing
  import opened BlockBuilding

  // What is to be built: the entries of every block, and how a block is built from them.
  datatype Job = Job(c: Config, h: HashFn, blocks: seq<seq<Entry>>, build: BlockBuilder, workers: nat) {
    // A built block carries one entry per key.
    ghost predicate Valid() {
      && c.Valid() && workers > 0 && |blocks| == c.numBlocks > 0
      && forall b :: 0 <= b < |blocks| ==> Sized(b)
    }

    predicate Sized(b: nat)
      requires b < |blocks|
    {
      var r := build(blocks[b]);
      r.Some? ==> r.value.numKeys == |blocks[b]| && |r.value.payloads| == Offset(r.value.numKeys, c.EntrySize())
    }

    function Capacity(): nat { 2 * workers }

    // The keys of the first n blocks.
    function KeysBefore(n: nat): nat
      requires n <= |blocks|
    {
      if n == 0 then 0 else KeysBefore(n - 1) + |blocks[n - 1]|
    }

    // Where block b's payloads go.
    function PayloadAt(b: nat): nat
      requires b <= |blocks|
    {
      c.PayloadOffset(KeysBefore(b))
    }

    ghost predicate AllBuild(n: nat)
      requires n <= |blocks|
    {
      forall b :: 0 <= b < n ==> build(blocks[b]).Some?
    }

    // The first n blocks, built.
    ghost function Built(n: nat): (r: seq<Block>)
      requires n <= |blocks| && AllBuild(n)
      ensures |r| == n
    {
      seq(n, b requires 0 <= b < n => build(blocks[b]).value)
    }
  }

  datatype Work = Work(block: nat, keysBefore: nat)

  datatype Message = Message(block: nat, metadata: seq<Byte>, numKeys: nat, payloadHash: UInt64, failed: bool)

  // A worker goroutine, and whether it returned an error. It checks its context once for every
  // block it takes.
  datatype Worker = Starting | Ready | Holding(work: Work, checked: bool) | Sending(message: Message) | Failing | Exited(failed: bool)

  // The writer goroutine: after an error it reports it, cancels the workers and closes.
  datatype WriterPhase = Running | Reported | Closing | Closed

  // The calling goroutine: adding keys, in Finish, or tearing down.
  datatype Phase =
    | Adding                    // between AddKey calls
    | Finishing                 // dispatching the rest
    | Waiting                   // drain: workChan closed, waiting for the workers
    | DrainFailed | Draining    // drain: resultChan closed, waiting for the writer
    | Stopping                  // shutdown: cancelled, waiting for the workers
    | Stopped                   // shutdown: waiting for the writer
    | Returned(succeeded: bool)

  // The calling goroutine: the next block, its key offset, the stored error, and the result.
  datatype Main = Main(phase: Phase, next: nat, keysBefore: nat, writerErr: bool,
                       dropped: bool, // history: some block was not sent
                       published: seq<Byte>)

  // The worker goroutines, their context, and whether their group has an error.
  datatype Pool = Pool(workers: seq<Worker>, parentDone: bool, cancelled: bool, groupFailed: bool)

  // The writer goroutine, its error channel, the blocks waiting for their turn, and the index writer.
  datatype WriterState = WriterState(phase: WriterPhase, done: bool,
                                     reported: bool, // history: it reported an error
                                     pending: map<nat, Message>, iw: Progress)

  datatype State = State(main: Main, workChan: seq<Work>, pool: Pool, results: seq<Message>, writer: WriterState)

  datatype Step =
    | CancelParent
    | Dispatch | DispatchCancelled | DispatchReported | Poll | ContextCheck | Abort(read: bool) | Finish | Close | CloseWork | WorkersDone
    | Conclude(io: bool)
    | Start(i: nat, ok: bool) | Take(i: nat) | Abandon(i: nat) | Check(i: nat) | Build(i: nat, fault: Fault) | Send(i: nat)
    | SendCancelled(i: nat) | Exit(i: nat) | Leave(i: nat)
    | Receive | Emit(metadataFault: Fault) | CancelByWriter | CloseDone | WriterLeave

  function Init(j: Job, file: seq<Byte>): State {
    State(Main(Adding, 0, 0, false, false, []), [], Pool(seq(j.workers, _ => Starting), false, false, false), [],
          WriterState(Running, false, false, map[], Started(j.c, file)))
  }

  // ---------- The dispatcher ----------

  // Before Finish only blocks that a later key has closed are dispatched.
  predicate CanDispatch(j: Job, m: Main) {
    (m.phase == Adding && m.next + 1 < |j.blocks|) || (m.phase == Finishing && m.next < |j.blocks|)
  }

  // keysBefore and nextBlockToWrite advance before the send is tried.
  function Advanced(j: Job, m: Main): Main
    requires m.next < |j.blocks|
  {
    m.(next := m.next + 1, keysBefore := m.keysBefore + |j.blocks[m.next]|)
  }

  function Cancelled(p: Pool): Pool { p.(cancelled := true) }

  // The teardown cancels the workers and closes the work channel.
  function Shutdown(s: State): State {
    s.(main := s.main.(phase := Stopping), pool := Cancelled(s.pool))
  }

  // An error while adding may be ignored by the caller; in Finish it ends the build.
  function Refused(s: State): State {
    if s.main.phase == Adding then s else Shutdown(s)
  }

  predicate WorkClosed(m: Main) { m.phase != Adding && m.phase != Finishing }

  predicate ResultsClosed(m: Main) { m.phase == DrainFailed || m.phase == Draining || m.phase == Stopped || m.phase.Returned? }

  predicate WriterDoneReadable(w: WriterState) { w.done || w.phase == Closed }

  // Reading writerDone: a buffered error is consumed and stored.
  function ReadDone(s: State, m: Main): State {
    s.(main := m.(writerErr := m.writerErr || s.writer.done), writer := s.writer.(done := false))
  }

  ghost predicate AllExited(p: Pool) {
    forall i :: 0 <= i < |p.workers| ==> p.workers[i].Exited?
  }

  // The finished file does not exceed the preallocation.
  predicate InSize(j: Job, iw: Progress) {
    iw.metadataWriteOffset + FOOTER_SIZE <= j.c.estimatedSize
  }

  // The writer's offsets are within the file's layout.
  predicate Laid(j: Job, iw: Progress) {
    j.c.Valid() && j.c.MetadataRegionOffset() <= iw.metadataWriteOffset
  }

  ghost predicate MainEnabled(j: Job, s: State, step: Step) {
    match step
    case Dispatch => CanDispatch(j, s.main) && |s.workChan| < j.Capacity()
    case DispatchCancelled => CanDispatch(j, s.main) && s.pool.cancelled
    case DispatchReported => CanDispatch(j, s.main) && WriterDoneReadable(s.writer)
    case Poll => !WorkClosed(s.main) && s.writer.done
    case ContextCheck => s.main.phase == Finishing && s.pool.parentDone
    case Abort(read) => s.main.phase == Finishing && (read ==> WriterDoneReadable(s.writer)) // for a reason of its own
    case Finish => s.main.phase == Adding
    case Close => s.main.phase == Adding
    case CloseWork => s.main.phase == Finishing && s.main.next == |j.blocks|
    case WorkersDone => (s.main.phase == Waiting || s.main.phase == Stopping) && AllExited(s.pool)
    case Conclude(_) => (s.main.phase == DrainFailed || s.main.phase == Draining || s.main.phase == Stopped) && WriterDoneReadable(s.writer) && Laid(j, s.writer.iw)
    case _ => false
  }

  function DoMain(j: Job, s: State, step: Step): State
    requires MainEnabled(j, s, step)
  {
    match step
    case Dispatch => s.(main := Advanced(j, s.main), workChan := s.workChan + [Work(s.main.next, s.main.keysBefore)])
    case DispatchCancelled => Refused(s.(main := Advanced(j, s.main).(dropped := true)))
    case DispatchReported => Refused(ReadDone(s, Advanced(j, s.main).(dropped := true)))
    case Poll => Refused(ReadDone(s, s.main))
    case ContextCheck => Shutdown(s)
    case Abort(read) => Shutdown(if read then ReadDone(s, s.main) else s)
    case Finish =>
      if s.main.writerErr || j.KeysBefore(|j.blocks|) != j.c.totalKeys then Shutdown(s)
      else s.(main := s.main.(phase := Finishing))
    case Close => Shutdown(s)
    case CloseWork => s.(main := s.main.(phase := Waiting))
    case WorkersDone =>
      if s.main.phase == Stopping then s.(main := s.main.(phase := Stopped), workChan := [])
      else s.(main := s.main.(phase := if s.pool.groupFailed then DrainFailed else Draining))
    case Conclude(io) =>
      if s.main.phase == Draining && !s.writer.done && io && InSize(j, s.writer.iw)
      then s.(main := s.main.(phase := Returned(true), published := Finalized(j.c, j.h, s.writer.iw)))
      else s.(main := s.main.(phase := Returned(false)), writer := s.writer.(done := false))
  }

  // ---------- Workers ----------

  ghost predicate WorkerEnabled(j: Job, s: State, step: Step) {
    var workers := s.pool.workers;
    match step
    case Start(i, _) => i < |workers| && workers[i] == Starting
    case Take(i) => i < |workers| && workers[i] == Ready && |s.workChan| > 0
    case Abandon(i) => i < |workers| && workers[i].Holding? && !workers[i].checked && s.pool.cancelled
    case Check(i) => i < |workers| && workers[i].Holding? && !workers[i].checked && !s.pool.cancelled
    case Build(i, fault) => i < |workers| && workers[i].Holding? && workers[i].checked && TornFits(j, workers[i].work.block, fault)
    case Send(i) => i < |workers| && workers[i].Sending? && |s.results| < j.Capacity()
    case SendCancelled(i) => i < |workers| && workers[i].Sending? && s.pool.cancelled
    case Exit(i) => i < |workers| && workers[i] == Failing
    case Leave(i) => i < |workers| && workers[i] == Ready && WorkClosed(s.main) && s.workChan == []
    case _ => false
  }

  // A failing write tears no more than its own range.
  predicate TornFits(j: Job, b: nat, fault: Fault) {
    && b < |j.blocks|
    && (fault.Some? && j.build(j.blocks[b]).Some? ==> |fault.value| <= |j.build(j.blocks[b]).value.payloads|)
  }

  // Building a block and writing its payloads: the new file, and the message for the writer.
  function BuildBlock(j: Job, file: seq<Byte>, w: Work, fault: Fault): (seq<Byte>, Message)
    requires w.block < |j.blocks|
  {
    match j.build(j.blocks[w.block])
    case None => (file, Message(w.block, [], 0, 0, true))
    case Some(b) =>
      var (written, ok) := WritePayloads(j.c, file, b.payloads, Offset(w.keysBefore, j.c.EntrySize()), fault);
      (written, Message(w.block, b.metadata, b.numKeys, j.h(b.payloads), !ok))
  }

  function SetWorker(p: Pool, i: nat, w: Worker): Pool
    requires i < |p.workers|
  {
    p.(workers := p.workers[i := w])
  }

  function DoWorker(j: Job, s: State, step: Step): State
    requires WorkerEnabled(j, s, step)
  {
    match step
    case Start(i, ok) => s.(pool := SetWorker(s.pool, i, if ok then Ready else Failing))
    case Take(i) => s.(pool := SetWorker(s.pool, i, Holding(s.workChan[0], false)), workChan := s.workChan[1..])
    case Abandon(i) => s.(pool := SetWorker(s.pool, i, Failing))
    case Check(i) => s.(pool := SetWorker(s.pool, i, Holding(s.pool.workers[i].work, true)))
    case Build(i, fault) =>
      var (file, message) := BuildBlock(j, s.writer.iw.file, s.pool.workers[i].work, fault);
      s.(pool := SetWorker(s.pool, i, Sending(message)), writer := s.writer.(iw := s.writer.iw.(file := file)))
    case Send(i) =>
      var m := s.pool.workers[i].message;
      s.(pool := SetWorker(s.pool, i, if m.failed then Failing else Ready), results := s.results + [m])
    case SendCancelled(i) => s.(pool := SetWorker(s.pool, i, Failing))
    case Exit(i) => s.(pool := Cancelled(SetWorker(s.pool, i, Exited(true)).(groupFailed := true)))
    case Leave(i) => s.(pool := SetWorker(s.pool, i, Exited(false)))
  }

  // ---------- The writer ----------

  // The next block in order has arrived.
  predicate NextPending(w: WriterState) { w.iw.blockCount in w.pending }

  ghost predicate WriterEnabled(j: Job, s: State, step: Step) {
    var w := s.writer;
    match step
    case Receive => w.phase == Running && !NextPending(w) && |s.results| > 0
    case Emit(_) => w.phase == Running && NextPending(w) && Laid(j, w.iw)
    case CancelByWriter => w.phase == Reported
    case CloseDone => w.phase == Closing
    case WriterLeave => w.phase == Running && !NextPending(w) && s.results == [] && ResultsClosed(s.main)
    case _ => false
  }

  function Report(w: WriterState): WriterState {
    w.(phase := Reported, done := true, reported := true)
  }

  function Receive1(w: WriterState, m: Message): WriterState {
    if m.failed then Report(w) else w.(pending := w.pending[m.block := m])
  }

  // The next block's hash is folded and its metadata written.
  function Emit1(j: Job, w: WriterState, fault: Fault): WriterState
    requires NextPending(w) && Laid(j, w.iw)
  {
    var m := w.pending[w.iw.blockCount];
    var (iw, ok) := WriteMetadata(j.c, Fold(w.iw, m.payloadHash), m.metadata, m.numKeys, fault);
    var emitted := w.(pending := w.pending - {w.iw.blockCount}, iw := iw);
    if ok then emitted else Report(emitted)
  }

  function DoWriter(j: Job, s: State, step: Step): State
    requires WriterEnabled(j, s, step)
  {
    match step
    case Receive => s.(results := s.results[1..], writer := Receive1(s.writer, s.results[0]))
    case Emit(fault) => s.(writer := Emit1(j, s.writer, fault))
    case CancelByWriter => s.(writer := s.writer.(phase := Closing), pool := Cancelled(s.pool))
    case CloseDone => s.(writer := s.writer.(phase := Closed))
    case WriterLeave => s.(writer := s.writer.(phase := Closed))
  }

  // ---------- Runs ----------

  ghost predicate Enabled(j: Job, s: State, step: Step) {
    || (step == CancelParent && !s.pool.parentDone)
    || MainEnabled(j, s, step) || WorkerEnabled(j, s, step) || WriterEnabled(j, s, step)
  }

  ghost function Do(j: Job, s: State, step: Step): State
    requires Enabled(j, s, step)
  {
    if MainEnabled(j, s, step) then DoMain(j, s, step)
    else if WorkerEnabled(j, s, step) then DoWorker(j, s, step)
    else if WriterEnabled(j, s, step) then DoWriter(j, s, step)
    else s.(pool := s.pool.(parentDone := true, cancelled := true))
  }

  // `s` is reached from the start by the steps.
  ghost predicate Reaches(j: Job, file: seq<Byte>, steps: seq<Step>, s: State)
    decreases |steps|
  {
    if |steps| == 0 then s == Init(j, file)
    else
      var n := |steps| - 1;
      exists before :: Reaches(j, file, steps[..n], before) && Enabled(j, before, steps[n]) && s == Do(j, before, steps[n])
  }
}
