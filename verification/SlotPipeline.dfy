/** The unsorted parallel finish as a whole: the slot protocol and the pipeline, joined at the
    work channel, the workers and the writer's reports, over slots with contents. */
module SlotPipeline {
  import opened Basics
  import R = ReadSlots
  import P = Pipeline

  // Both machines, and the partition whose entries each slot's buffer holds.
  datatype State = State(slots: R.State, pipe: P.State, contents: seq<Option<nat>>)

  // A step of the readers or the caller, of the workers' insides or the writer, or one that
  // both machines see.
  datatype Step = Slots(a: R.Step) | Pipe(b: P.Step) | Both(a: R.Step, b: P.Step)

  // The finish begins once the keys have been counted.
  function Init(c: R.Plan, j: P.Job, file: seq<Byte>): State {
    State(R.Init(c), P.Init(j, file).(main := P.Init(j, file).main.(phase := P.Finishing)), seq(c.Slots(), _ => None))
  }

  // ---------- Which steps belong together ----------

  function WorkerAt(s: State, i: nat): P.Worker {
    if i < |s.pipe.pool.workers| then s.pipe.pool.workers[i] else P.Ready
  }

  predicate IsChecked(w: P.Worker) { w.Holding? && w.checked }

  // What only the slot protocol sees. Entries are released after the worker's check.
  predicate OfSlots(s: State, a: R.Step) {
    match a
    case Claim(_) => true
    case Read(_, _) => true
    case Hand(_) => true
    case Quit(_) => true
    case Receive => true
    case Interrupt => true
    case AddFence => true
    case Refuse => true
    case EndPartition => true
    case AllParts => true
    case Wake(_) => true
    case Release(i) => IsChecked(WorkerAt(s, i))
    case _ => false
  }

  predicate HeadFailed(p: P.State) { |p.results| > 0 && p.results[0].failed }

  // What only the pipeline sees. A block is built after its entries have been released.
  ghost predicate OfPipe(j: P.Job, s: State, b: P.Step)
    requires P.Enabled(j, s.pipe, b)
  {
    match b
    case Start(_, ok) => ok
    case Check(_) => true
    case Build(i, _) => i < |s.slots.workers| && s.slots.workers[i] == R.Busy
    case Receive => !HeadFailed(s.pipe)
    case Emit(_) => !P.Do(j, s.pipe, b).writer.reported
    case CancelByWriter => s.pipe.pool.cancelled
    case CloseDone => true
    case WriterLeave => true
    case WorkersDone => true
    case _ => false
  }

  // What both see.
  ghost predicate Paired(j: P.Job, s: State, a: R.Step, b: P.Step)
    requires P.Enabled(j, s.pipe, b)
  {
    match b
    case CancelParent => a == R.CancelParent
    case Receive => a == R.Report && HeadFailed(s.pipe)
    case Emit(_) => a == R.WriterFault && P.Do(j, s.pipe, b).writer.reported
    case CancelByWriter => a == R.CancelByWriter
    case Dispatch => a == R.SendPlain || a == R.SendFenced
    case CloseWork => a == R.Join && s.slots.main.phase == R.Joining
    case Abort(_) => a == R.Join && s.slots.main.phase == R.Failed
    case Conclude(io) => a == R.Released || a == R.Conclude(io && P.InSize(j, s.pipe.writer.iw))
    case Take(i) => a == R.Take(i)
    case Abandon(i) => a == R.GiveUp(i)
    case SendCancelled(i) => a == R.GiveUp(i)
    case Send(i) => WorkerAt(s, i).Sending? && a == (if WorkerAt(s, i).message.failed then R.Fail(i) else R.Finish(i))
    case Exit(i) => a == R.Exit(i)
    case Leave(i) => a == R.Leave(i)
    case _ => false
  }

  ghost predicate Enabled(c: R.Plan, j: P.Job, s: State, step: Step) {
    match step
    case Slots(a) => R.Enabled(c, s.slots, a) && OfSlots(s, a)
    case Pipe(b) => P.Enabled(j, s.pipe, b) && OfPipe(j, s, b)
    case Both(a, b) => R.Enabled(c, s.slots, a) && P.Enabled(j, s.pipe, b) && Paired(j, s, a, b)
  }

  // A reader that claims a slot overwrites it.
  function Contents(c: R.Plan, s: R.State, contents: seq<Option<nat>>, a: R.Step): (r: seq<Option<nat>>)
    ensures |r| == |contents|
  {
    match a
    case Claim(i) =>
      if i < |s.pool.readers| && R.SlotNow(c, s, i) < |contents| then contents[R.SlotNow(c, s, i) := None] else contents
    case Read(i, true) =>
      if i < |s.pool.readers| && R.SlotNow(c, s, i) < |contents|
      then contents[R.SlotNow(c, s, i) := Some(s.pool.readers[i].part)] else contents
    case _ => contents
  }

  ghost function Do(c: R.Plan, j: P.Job, s: State, step: Step): State
    requires Enabled(c, j, s, step)
  {
    match step
    case Slots(a) => State(R.Do(c, s.slots, a), s.pipe, Contents(c, s.slots, s.contents, a))
    case Pipe(b) => s.(pipe := P.Do(j, s.pipe, b))
    case Both(a, b) => s.(slots := R.Do(c, s.slots, a), pipe := P.Do(j, s.pipe, b))
  }

  // Steps of the outside.
  predicate External(step: Step) {
    match step
    case Both(a, b) => b.CancelParent? || b.Emit?
    case _ => false
  }

  ghost predicate Reaches(c: R.Plan, j: P.Job, file: seq<Byte>, steps: seq<Step>, s: State)
    decreases |steps|
  {
    if |steps| == 0 then s == Init(c, j, file)
    else
      var n := |steps| - 1;
      exists before :: Reaches(c, j, file, steps[..n], before) && Enabled(c, j, before, steps[n]) && s == Do(c, j, before, steps[n])
  }

  // ---------- What each machine sees of a run ----------

  function SlotSteps(steps: seq<Step>): seq<R.Step> {
    if |steps| == 0 then []
    else
      var n := |steps| - 1;
      SlotSteps(steps[..n]) + match steps[n] case Slots(a) => [a] case Pipe(_) => [] case Both(a, _) => [a]
  }

  function PipeSteps(steps: seq<Step>): seq<P.Step> {
    if |steps| == 0 then [P.Finish]
    else
      var n := |steps| - 1;
      PipeSteps(steps[..n]) + match steps[n] case Slots(_) => [] case Pipe(b) => [b] case Both(_, b) => [b]
  }

  // The keys added are as many as promised.
  ghost predicate Counted(j: P.Job) { j.Valid() && j.KeysBefore(|j.blocks|) == j.c.totalKeys }

  /** Every run is a run of the slot protocol and a run of the pipeline, seen together. */
  lemma {:induction false} Projects(c: R.Plan, j: P.Job, file: seq<Byte>, steps: seq<Step>, s: State)
    requires Counted(j) && Reaches(c, j, file, steps, s)
    ensures R.Reaches(c, SlotSteps(steps), s.slots)
    ensures P.Reaches(j, file, PipeSteps(steps), s.pipe)
  {
    if |steps| == 0 {
      Begins(j, file);
    } else {
      var n := |steps| - 1;
      var before :| Reaches(c, j, file, steps[..n], before) && Enabled(c, j, before, steps[n]) && s == Do(c, j, before, steps[n]);
      Projects(c, j, file, steps[..n], before);
      hide R.Enabled, R.Do, P.Enabled, P.Do, OfSlots, OfPipe, Paired, Contents, Reaches, Counted;
      match steps[n]
      case Slots(a) =>
        SlotsOneMore(c, SlotSteps(steps[..n]), before.slots, a);
        assert PipeSteps(steps) == PipeSteps(steps[..n]);
      case Pipe(b) =>
        PipeOneMore(j, file, PipeSteps(steps[..n]), before.pipe, b);
        assert SlotSteps(steps) == SlotSteps(steps[..n]);
      case Both(a, b) =>
        SlotsOneMore(c, SlotSteps(steps[..n]), before.slots, a);
        PipeOneMore(j, file, PipeSteps(steps[..n]), before.pipe, b);
    }
  }

  lemma SlotsOneMore(c: R.Plan, steps: seq<R.Step>, s: R.State, a: R.Step)
    requires R.Reaches(c, steps, s) && R.Enabled(c, s, a)
    ensures R.Reaches(c, steps + [a], R.Do(c, s, a))
  {
    assert (steps + [a])[..|steps|] == steps;
    hide R.Enabled, R.Do;
  }

  lemma PipeOneMore(j: P.Job, file: seq<Byte>, steps: seq<P.Step>, s: P.State, b: P.Step)
    requires P.Reaches(j, file, steps, s) && P.Enabled(j, s, b)
    ensures P.Reaches(j, file, steps + [b], P.Do(j, s, b))
  {
    assert (steps + [b])[..|steps|] == steps;
    hide P.Enabled, P.Do;
  }

  lemma Begins(j: P.Job, file: seq<Byte>)
    requires Counted(j)
    ensures P.Reaches(j, file, [P.Finish], P.Init(j, file).(main := P.Init(j, file).main.(phase := P.Finishing)))
  {
    var start := P.Init(j, file);
    assert [P.Finish][..0] == [];
    assert P.Reaches(j, file, [], start);
    assert P.Enabled(j, start, P.Finish);
    assert P.Do(j, start, P.Finish) == start.(main := start.main.(phase := P.Finishing));
  }
}
