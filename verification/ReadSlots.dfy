/** The unsorted parallel finish: readers fill slots, the caller dispatches their entries
    without copying, and fences say when a slot may be filled again. */
module ReadSlots {
  import opened Basics

  const READ_PIPELINE_DEPTH := 3
  const SLOTS_PER_READER := 2

  function Min(a: nat, b: nat): nat { if a < b then a else b }

  function One(c: bool): nat { if c then 1 else 0 }

  // The partitions, as which of their blocks have entries; and the number of workers. A single
  // worker finishes without goroutines.
  datatype Plan = Plan(parts: seq<seq<bool>>, workers: nat) {
    predicate Valid() { |parts| > 0 && workers > 1 }

    function Slots(): nat { Min(READ_PIPELINE_DEPTH * SLOTS_PER_READER, |parts|) }

    function Readers(): (r: nat)
      ensures r > 0
    {
      if Slots() / SLOTS_PER_READER < 1 then 1 else Slots() / SLOTS_PER_READER
    }

    function Capacity(): nat { 2 * workers }

    // Reader r alternates between its two slots.
    function SlotOf(r: nat, cycle: nat): nat { r * SLOTS_PER_READER + cycle % SLOTS_PER_READER }
  }

  datatype ReaderPhase = Waiting | Reading | Offering(ok: bool) | Gone

  // A reader goroutine: its next partition and how many it has read.
  datatype Reader = Reader(part: nat, cycle: nat, phase: ReaderPhase)

  datatype Offer = Offer(slot: nat, part: nat, ok: bool)

  // What the readers work with: their channels, and the slots' ready channels.
  datatype Pool = Pool(readers: seq<Reader>, offers: seq<Option<Offer>>, ready: seq<nat>, cancelled: bool)

  datatype Item = Plain | Fenced(slot: nat)

  datatype Worker = Idle | Holding(item: Item) | Busy | Failing | Left(failed: bool)

  datatype MainPhase =
    | Receiving
    | Dispatching(k: nat, added: bool) // block k of the partition; its fence already added
    | Joining                          // all dispatched, waiting for the readers
    | Draining                         // workChan closed, waiting for the workers
    | Failed                           // readers cancelled, waiting for them
    | Shutting                         // workers cancelled, workChan closed, waiting for them
    | Done(drained: bool)

  // The caller: the partition it is at, the slot it holds, and whether it returned without an
  // error, once it has returned.
  datatype Main = Main(phase: MainPhase, part: nat, held: Option<nat>, result: Option<bool>)

  // Contexts and errors. The writer reports an error a worker queued, or its own.
  datatype Flags = Flags(parentDone: bool, cancelled: bool, groupFailed: bool, errorQueued: bool, reported: bool)

  datatype State = State(pool: Pool, fences: seq<nat>, waiters: multiset<nat>, main: Main, workChan: seq<Item>,
                         workers: seq<Worker>, flags: Flags)

  datatype Step =
    | CancelParent | WriterFault | Report | CancelByWriter
    | Claim(r: nat) | Read(r: nat, ok: bool) | Hand(r: nat) | Quit(r: nat)
    | Receive | Interrupt | AddFence | SendPlain | SendFenced | Refuse | EndPartition | AllParts | Join | Released | Conclude(finalized: bool)
    | Wake(slot: nat)
    | Take(i: nat) | Release(i: nat) | GiveUp(i: nat) | Finish(i: nat) | Fail(i: nat) | Exit(i: nat) | Leave(i: nat)

  function Init(c: Plan): State {
    State(Pool(seq(c.Readers(), r requires 0 <= r < c.Readers() => Reader(r, 0, if r < |c.parts| then Waiting else Gone)), seq(c.Readers(), _ => None),
               seq(c.Slots(), _ => 1), false),
          seq(c.Slots(), _ => 0), multiset{}, Main(Receiving, 0, None, None), [], seq(c.workers, _ => Idle),
          Flags(false, false, false, false, false))
  }

  // ---------- Readers ----------

  predicate Is(s: State, r: nat, phase: ReaderPhase) {
    r < |s.pool.readers| && r < |s.pool.offers| && s.pool.readers[r].phase == phase
  }

  function SlotNow(c: Plan, s: State, r: nat): nat
    requires r < |s.pool.readers|
  {
    c.SlotOf(r, s.pool.readers[r].cycle)
  }

  predicate ReaderEnabled(c: Plan, s: State, step: Step) {
    match step
    case Claim(r) => Is(s, r, Waiting) && SlotNow(c, s, r) < |s.pool.ready| && s.pool.ready[SlotNow(c, s, r)] > 0
    case Read(r, _) => Is(s, r, Reading)
    case Hand(r) => (Is(s, r, Offering(true)) || Is(s, r, Offering(false))) && s.pool.offers[r].None?
    case Quit(r) => (Is(s, r, Waiting) || Is(s, r, Offering(true)) || Is(s, r, Offering(false))) && s.pool.cancelled
    case _ => false
  }

  function SetPhase(p: Pool, r: nat, phase: ReaderPhase): Pool
    requires r < |p.readers|
  {
    p.(readers := p.readers[r := p.readers[r].(phase := phase)])
  }

  // After handing over a result: the next partition in the reader's stride, or done.
  function NextOf(c: Plan, reader: Reader, ok: bool): Reader {
    var part := reader.part + c.Readers();
    Reader(part, reader.cycle + 1, if ok && part < |c.parts| then Waiting else Gone)
  }

  function DoReader(c: Plan, s: State, step: Step): State
    requires ReaderEnabled(c, s, step)
  {
    match step
    case Claim(r) =>
      var slot := SlotNow(c, s, r);
      s.(pool := SetPhase(s.pool, r, Reading).(ready := s.pool.ready[slot := s.pool.ready[slot] - 1]))
    case Read(r, ok) => s.(pool := SetPhase(s.pool, r, Offering(ok)))
    case Hand(r) =>
      var reader := s.pool.readers[r];
      s.(pool := s.pool.(readers := s.pool.readers[r := NextOf(c, reader, reader.phase.ok)],
                         offers := s.pool.offers[r := Some(Offer(SlotNow(c, s, r), reader.part, reader.phase.ok))]))
    case Quit(r) => s.(pool := SetPhase(s.pool, r, Gone))
  }

  // ---------- The caller ----------

  predicate WorkClosed(m: Main) { m.phase == Draining || m.phase == Shutting || m.phase.Done? }

  ghost predicate ReadersGone(p: Pool) { forall r :: 0 <= r < |p.readers| ==> p.readers[r].phase == Gone }

  ghost predicate WorkersLeft(s: State) { forall i :: 0 <= i < |s.workers| ==> s.workers[i].Left? }

  // The reader whose turn it is.
  function Turn(c: Plan, s: State): nat { s.main.part % c.Readers() }

  predicate AtBlock(c: Plan, s: State, added: bool, full: bool) {
    && s.main.phase.Dispatching? && s.main.phase.added == added && s.main.held.Some? && s.main.held.value < |s.fences|
    && s.main.part < |c.parts| && s.main.phase.k < |c.parts[s.main.part]| && c.parts[s.main.part][s.main.phase.k] == full
  }

  // The caller waits for the writer, and the writer reads every queued error before it ends.
  predicate WriterHeard(s: State) { s.flags.errorQueued ==> s.flags.reported }

  ghost predicate MainEnabled(c: Plan, s: State, step: Step) {
    var m := s.main;
    match step
    case Receive => m.phase == Receiving && m.part < |c.parts| && Turn(c, s) < |s.pool.offers| && s.pool.offers[Turn(c, s)].Some?
    case Interrupt => // the reader exited, or the parent's or the writer's end is seen
      && (m.phase == Receiving || m.phase.Dispatching?) && (m.phase.Dispatching? ==> !m.phase.added) && m.part < |c.parts|
      && (s.flags.parentDone || s.flags.reported
          || (m.phase == Receiving && Is(s, Turn(c, s), Gone) && s.pool.offers[Turn(c, s)].None?))
    case AddFence => AtBlock(c, s, false, true)
    case SendPlain => AtBlock(c, s, false, false) && |s.workChan| < c.Capacity()
    case SendFenced => AtBlock(c, s, true, true) && |s.workChan| < c.Capacity()
    case Refuse => (AtBlock(c, s, true, true) || AtBlock(c, s, false, false)) && (s.flags.cancelled || s.flags.reported)
    case EndPartition => m.phase.Dispatching? && !m.phase.added && m.held.Some? && m.part < |c.parts| && m.phase.k == |c.parts[m.part]|
    case AllParts => m.phase == Receiving && m.part == |c.parts|
    case Join => (m.phase == Joining || m.phase == Failed) && ReadersGone(s.pool)
    case Released => m.phase == Shutting && WorkersLeft(s) && WriterHeard(s)
    case Conclude(_) => m.phase == Draining && WorkersLeft(s) && WriterHeard(s)
    case _ => false
  }

  function Add(s: seq<nat>, k: nat): seq<nat>
    requires k < |s|
  {
    s[k := s[k] + 1]
  }

  function Sub(s: seq<nat>, k: nat): seq<nat>
    requires k < |s|
  {
    s[k := if s[k] > 0 then s[k] - 1 else 0]
  }

  // The readers are cancelled; the slot held stays with the caller.
  function FailNow(s: State): State {
    s.(main := s.main.(phase := Failed), pool := s.pool.(cancelled := true))
  }

  // Releasing the fences of what the workers left queued.
  function ReleaseAll(fences: seq<nat>, items: seq<Item>): (r: seq<nat>)
    ensures |r| == |fences|
    decreases |items|
  {
    if |items| == 0 then fences
    else
      var rest := match items[0]
                  case Plain => fences
                  case Fenced(slot) => if slot < |fences| then Sub(fences, slot) else fences;
      ReleaseAll(rest, items[1..])
  }

  function DoMain(c: Plan, s: State, step: Step): State
    requires MainEnabled(c, s, step)
  {
    match step
    case Receive =>
      var offer := s.pool.offers[Turn(c, s)].value;
      var taken := s.(pool := s.pool.(offers := s.pool.offers[Turn(c, s) := None]),
                      main := s.main.(phase := Dispatching(0, false), held := Some(offer.slot)));
      if offer.ok then taken else FailNow(taken)
    case Interrupt => FailNow(s)
    case AddFence => s.(fences := Add(s.fences, s.main.held.value), main := s.main.(phase := Dispatching(s.main.phase.k, true)))
    case SendPlain => s.(workChan := s.workChan + [Plain], main := s.main.(phase := Dispatching(s.main.phase.k + 1, false)))
    case SendFenced => s.(workChan := s.workChan + [Fenced(s.main.held.value)], main := s.main.(phase := Dispatching(s.main.phase.k + 1, false)))
    case Refuse => FailNow(if s.main.phase.added then s.(fences := Sub(s.fences, s.main.held.value)) else s)
    case EndPartition => s.(waiters := s.waiters + multiset{s.main.held.value}, main := s.main.(phase := Receiving, part := s.main.part + 1, held := None))
    case AllParts => s.(main := s.main.(phase := Joining))
    case Join =>
      if s.main.phase == Joining then s.(main := s.main.(phase := Draining))
      else s.(main := s.main.(phase := Shutting), flags := s.flags.(cancelled := true))
    case Released => s.(fences := ReleaseAll(s.fences, s.workChan), workChan := [], main := s.main.(phase := Done(false), result := Some(false)))
    case Conclude(finalized) =>
      s.(main := s.main.(phase := Done(true), result := Some(finalized && !s.flags.groupFailed && !s.flags.reported)))
  }

  // ---------- Workers, waiters, and the writer's errors ----------

  predicate At(s: State, i: nat, w: Worker) { i < |s.workers| && s.workers[i] == w }

  predicate WorkerEnabled(c: Plan, s: State, step: Step) {
    match step
    case Take(i) => At(s, i, Idle) && |s.workChan| > 0
    case Release(i) => i < |s.workers| && s.workers[i].Holding?
    case GiveUp(i) => i < |s.workers| && (s.workers[i].Holding? || s.workers[i] == Busy) && s.flags.cancelled
    case Finish(i) => At(s, i, Busy)
    case Fail(i) => At(s, i, Busy)
    case Exit(i) => At(s, i, Failing)
    case Leave(i) => At(s, i, Idle) && WorkClosed(s.main) && s.workChan == []
    case _ => false
  }

  // The fence of a held item is released, whether or not the block is then built.
  function Fences(s: State, w: Worker): (r: seq<nat>)
    ensures |r| == |s.fences|
  {
    if w.Holding? && w.item.Fenced? && w.item.slot < |s.fences| then Sub(s.fences, w.item.slot) else s.fences
  }

  function DoWorker(c: Plan, s: State, step: Step): State
    requires WorkerEnabled(c, s, step)
  {
    match step
    case Take(i) => s.(workers := s.workers[i := Holding(s.workChan[0])], workChan := s.workChan[1..])
    case Release(i) => s.(workers := s.workers[i := Busy], fences := Fences(s, s.workers[i]))
    case GiveUp(i) => s.(workers := s.workers[i := Failing], fences := Fences(s, s.workers[i]))
    case Finish(i) => s.(workers := s.workers[i := Idle])
    case Fail(i) => s.(workers := s.workers[i := Failing], flags := s.flags.(errorQueued := true))
    case Exit(i) => s.(workers := s.workers[i := Left(true)], flags := s.flags.(groupFailed := true, cancelled := true))
    case Leave(i) => s.(workers := s.workers[i := Left(false)])
  }

  predicate OtherEnabled(c: Plan, s: State, step: Step) {
    match step
    case CancelParent => !s.flags.parentDone
    case WriterFault => !s.flags.reported && !s.main.phase.Done?
    case Report => s.flags.errorQueued && !s.flags.reported && !s.main.phase.Done?
    case CancelByWriter => s.flags.reported && !s.flags.cancelled
    case Wake(slot) => slot in s.waiters && slot < |s.fences| && s.fences[slot] == 0
                       && slot < |s.pool.ready| && s.pool.ready[slot] == 0
    case _ => false
  }

  function DoOther(c: Plan, s: State, step: Step): State
    requires OtherEnabled(c, s, step)
  {
    match step
    case CancelParent => s.(flags := s.flags.(parentDone := true, cancelled := true))
    case WriterFault => s.(flags := s.flags.(reported := true))
    case Report => s.(flags := s.flags.(reported := true))
    case CancelByWriter => s.(flags := s.flags.(cancelled := true))
    case Wake(slot) => s.(waiters := s.waiters - multiset{slot}, pool := s.pool.(ready := Add(s.pool.ready, slot)))
  }

  // Steps of the outside: a cancelled parent, a failing write.
  predicate External(step: Step) { step == CancelParent || step == WriterFault }

  ghost predicate Enabled(c: Plan, s: State, step: Step) {
    ReaderEnabled(c, s, step) || MainEnabled(c, s, step) || WorkerEnabled(c, s, step) || OtherEnabled(c, s, step)
  }

  ghost function Do(c: Plan, s: State, step: Step): State
    requires Enabled(c, s, step)
  {
    if ReaderEnabled(c, s, step) then DoReader(c, s, step)
    else if MainEnabled(c, s, step) then DoMain(c, s, step)
    else if WorkerEnabled(c, s, step) then DoWorker(c, s, step)
    else DoOther(c, s, step)
  }

  ghost predicate Reaches(c: Plan, steps: seq<Step>, s: State)
    decreases |steps|
  {
    if |steps| == 0 then s == Init(c)
    else
      var n := |steps| - 1;
      exists before :: Reaches(c, steps[..n], before) && Enabled(c, before, steps[n]) && s == Do(c, before, steps[n])
  }
}
