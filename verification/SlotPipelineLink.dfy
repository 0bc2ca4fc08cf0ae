/** What holds between the two machines of the unsorted finish: they agree on the queue, the
    workers and the errors, and every slot still holds the entries of the work that refers to it. */
module SlotPipelineLink {
  import opened Basics
  import R = ReadSlots
  import RS = ReadSlotsSafety
  import RR = ReadSlotsRuns
  import RD = ReadSlotsDelivery
  import IndexWriter
  import P = Pipeline
  import PC = PipelineControl
  import PR = PipelineResult
  import PN = PipelineRuns
  import opened SlotPipeline

  // The plan is the job's: its blocks in order, and which of them have entries.
  ghost predicate Fits(c: R.Plan, j: P.Job) {
    && c.Valid() && j.Valid() && c.workers == j.workers && |RD.AllBlocks(c)| == |j.blocks|
    && forall b :: 0 <= b < |j.blocks| ==> RD.AllBlocks(c)[b].full == (|j.blocks[b]| > 0)
  }

  // The item is block b's: empty, or in a slot that holds the entries of the block's partition.
  ghost predicate ItemOf(c: R.Plan, contents: seq<Option<nat>>, item: R.Item, b: nat) {
    && b < |RD.AllBlocks(c)|
    && match item
       case Plain => !RD.AllBlocks(c)[b].full
       case Fenced(slot) => RD.AllBlocks(c)[b].full && slot < |contents| && contents[slot] == Some(RD.AllBlocks(c)[b].part)
  }

  // The queue has been emptied by the teardown.
  predicate Cleared(s: State) { s.pipe.main.phase == P.Stopped || s.slots.main.phase == R.Done(false) }

  ghost predicate QueueLinked(c: R.Plan, s: State) {
    !Cleared(s) ==>
      && |s.slots.workChan| == |s.pipe.workChan|
      && forall k :: 0 <= k < |s.slots.workChan| ==> ItemOf(c, s.contents, s.slots.workChan[k], s.pipe.workChan[k].block)
  }

  ghost predicate WorkerLinked(c: R.Plan, contents: seq<Option<nat>>, a: R.Worker, b: P.Worker) {
    match a
    case Idle => b == P.Starting || b == P.Ready
    case Holding(item) => b.Holding? && ItemOf(c, contents, item, b.work.block)
    case Busy => IsChecked(b) || b.Sending?
    case Failing => b == P.Failing
    case Left(failed) => b == P.Exited(failed)
  }

  ghost predicate WorkersLinked(c: R.Plan, s: State) {
    && |s.slots.workers| == |s.pipe.pool.workers|
    && forall i :: 0 <= i < |s.slots.workers| ==> WorkerLinked(c, s.contents, s.slots.workers[i], s.pipe.pool.workers[i])
  }

  predicate FlagsLinked(s: State) {
    var f, p := s.slots.flags, s.pipe.pool;
    f.parentDone == p.parentDone && f.cancelled == p.cancelled && f.groupFailed == p.groupFailed && f.reported == s.pipe.writer.reported
  }

  ghost predicate SomeFailed(results: seq<P.Message>) { exists k :: 0 <= k < |results| && results[k].failed }

  // An error queued for the writer is among its messages, or was reported.
  ghost predicate ErrorsLinked(s: State) {
    && (SomeFailed(s.pipe.results) ==> s.slots.flags.errorQueued)
    && (s.slots.flags.errorQueued ==> s.pipe.writer.reported || SomeFailed(s.pipe.results))
  }

  // How many blocks the caller has dispatched.
  function Sent(c: R.Plan, m: R.Main): nat { if RD.PlaceValid(c, m) then |RD.Dispatched(c, m)| else 0 }

  predicate MainLinked(c: R.Plan, m: R.Main, p: P.Main) {
    match m.phase
    case Receiving => p.phase == P.Finishing && p.next == Sent(c, m)
    case Dispatching(_, _) => p.phase == P.Finishing && p.next == Sent(c, m)
    case Joining => p.phase == P.Finishing && p.next == Sent(c, m)
    case Failed => p.phase == P.Finishing
    case Draining => p.phase in {P.Waiting, P.DrainFailed, P.Draining}
    case Shutting => p.phase in {P.Stopping, P.Stopped}
    case Done(_) => m.result.Some? && p.phase == P.Returned(m.result.value)
  }

  // What a reader has read, what it has handed over and what the caller is dispatching.
  ghost predicate ReaderFresh(c: R.Plan, contents: seq<Option<nat>>, reader: R.Reader, r: nat) {
    reader.phase == R.Offering(true) ==>
      c.SlotOf(r, reader.cycle) < |contents| && contents[c.SlotOf(r, reader.cycle)] == Some(reader.part)
  }

  ghost predicate OfferFresh(contents: seq<Option<nat>>, offer: Option<R.Offer>) {
    offer.Some? && offer.value.ok ==> offer.value.slot < |contents| && contents[offer.value.slot] == Some(offer.value.part)
  }

  ghost predicate MainFresh(contents: seq<Option<nat>>, m: R.Main) {
    m.phase.Dispatching? ==> m.held.Some? && m.held.value < |contents| && contents[m.held.value] == Some(m.part)
  }

  ghost predicate Fresh(c: R.Plan, s: State) {
    && |s.contents| == c.Slots()
    && (forall r :: 0 <= r < |s.slots.pool.readers| ==> ReaderFresh(c, s.contents, s.slots.pool.readers[r], r))
    && (forall r :: 0 <= r < |s.slots.pool.offers| ==> OfferFresh(s.contents, s.slots.pool.offers[r]))
    && MainFresh(s.contents, s.slots.main)
  }

  ghost predicate Linked(c: R.Plan, s: State) {
    && QueueLinked(c, s) && WorkersLinked(c, s) && FlagsLinked(s) && ErrorsLinked(s)
    && MainLinked(c, s.slots.main, s.pipe.main) && Fresh(c, s)
  }

  ghost predicate Good(c: R.Plan, j: P.Job, s: State) {
    Fits(c, j) && RR.Sound(c, s.slots) && PR.Sound(j, s.pipe) && Linked(c, s)
  }

  // ---------- Slots that are overwritten ----------

  // A slot being filled is no other reader's, offered by none, and not the caller's.
  lemma FillingAlone(c: R.Plan, s: R.State, r: nat)
    requires RS.Safe(c, s) && r < c.Readers() && s.pool.readers[r].phase == R.Reading
    ensures |s.pool.readers| == |s.pool.offers| == c.Readers()
    ensures R.SlotNow(c, s, r) < c.Slots() && s.main.held != Some(R.SlotNow(c, s, r))
    ensures forall q :: 0 <= q < c.Readers() && q != r && s.pool.readers[q].phase.Offering? ==> R.SlotNow(c, s, q) != R.SlotNow(c, s, r)
    ensures forall q :: 0 <= q < c.Readers() && s.pool.offers[q].Some? ==> s.pool.offers[q].value.slot != R.SlotNow(c, s, r)
  {
    var slot := R.SlotNow(c, s, r);
    assert RS.InStride(c, s.pool.readers[r], s.pool.offers[r], s.main, r);
    RS.SlotInRange(c, r, s.pool.readers[r].cycle);
    assert RS.Tokens(c, s, slot) <= 1;
    assert RS.Has(c, s.pool.readers[r], r, slot);
    hide R.Plan.Readers, R.Plan.Slots, R.Plan.SlotOf, RS.FencesExact, RS.FencedSlotsHeld, RS.OneToken, RS.Taken;
    forall q: nat | q < c.Readers()
      ensures q != r && s.pool.readers[q].phase.Offering? ==> R.SlotNow(c, s, q) != slot
      ensures s.pool.offers[q].Some? ==> s.pool.offers[q].value.slot != slot
    {
      assert RS.InStride(c, s.pool.readers[q], s.pool.offers[q], s.main, q);
      if s.pool.readers[q].phase.Offering? { RS.SlotInRange(c, q, s.pool.readers[q].cycle); }
      if s.pool.offers[q].Some? { OfferedSlot(c, s.pool.readers[q], s.pool.offers[q], s.main, q); }
    }
  }

  lemma OfferedSlot(c: R.Plan, reader: R.Reader, offer: Option<R.Offer>, m: R.Main, r: nat)
    requires c.Valid() && r < c.Readers() && RS.InStride(c, reader, offer, m, r) && offer.Some?
    ensures offer.value.slot / R.SLOTS_PER_READER == r
  {
  }

  lemma ItemKept(c: R.Plan, contents: seq<Option<nat>>, slot: nat, v: Option<nat>, item: R.Item, b: nat)
    requires ItemOf(c, contents, item, b) && item != R.Fenced(slot) && slot < |contents|
    ensures ItemOf(c, contents[slot := v], item, b)
  {
    hide RD.AllBlocks;
  }

  lemma WorkersOverwritten(c: R.Plan, s: State, t: State, slot: nat, v: Option<nat>)
    requires WorkersLinked(c, s) && slot < |s.contents| && t.contents == s.contents[slot := v]
    requires t.slots.workers == s.slots.workers && t.pipe.pool == s.pipe.pool
    requires forall i :: 0 <= i < |s.slots.workers| ==> s.slots.workers[i] != R.Holding(R.Fenced(slot))
    ensures WorkersLinked(c, t)
  {
    hide ItemOf;
    forall i | 0 <= i < |s.slots.workers| ensures WorkerLinked(c, t.contents, s.slots.workers[i], s.pipe.pool.workers[i]) {
      assert WorkerLinked(c, s.contents, s.slots.workers[i], s.pipe.pool.workers[i]);
      if s.slots.workers[i].Holding? {
        ItemKept(c, s.contents, slot, v, s.slots.workers[i].item, s.pipe.pool.workers[i].work.block);
      }
    }
  }

  lemma QueueOverwritten(c: R.Plan, s: State, t: State, slot: nat, v: Option<nat>)
    requires QueueLinked(c, s) && slot < |s.contents| && t.contents == s.contents[slot := v]
    requires t.slots.workChan == s.slots.workChan && t.pipe == s.pipe && t.slots.main == s.slots.main
    requires R.Fenced(slot) !in s.slots.workChan
    ensures QueueLinked(c, t)
  {
    hide ItemOf;
    if !Cleared(s) {
      forall k | 0 <= k < |s.slots.workChan| ensures ItemOf(c, t.contents, s.slots.workChan[k], s.pipe.workChan[k].block) {
        ItemKept(c, s.contents, slot, v, s.slots.workChan[k], s.pipe.workChan[k].block);
      }
    }
  }

  // ---------- Readers ----------

  // A reader's step, in terms of its slot.
  lemma ReaderEffect(c: R.Plan, s: R.State, contents: seq<Option<nat>>, a: R.Step)
    requires RS.Shape(c, s) && R.ReaderEnabled(c, s, a) && |contents| == c.Slots()
    ensures var t, r := R.DoReader(c, s, a), RS.ReaderOf(a);
            && 0 <= r < |s.pool.readers| == |s.pool.offers| == c.Readers()
            && t == s.(pool := t.pool)
            && |t.pool.readers| == |t.pool.offers| == c.Readers()
            && t.pool.readers == s.pool.readers[r := t.pool.readers[r]] && t.pool.offers == s.pool.offers[r := t.pool.offers[r]]
            && (a.Claim? || a.Read? ==> t.pool.offers == s.pool.offers && t.pool.readers[r].cycle == s.pool.readers[r].cycle
                                        && t.pool.readers[r].part == s.pool.readers[r].part)
            && (a.Claim? ==> t.pool.readers[r].phase == R.Reading)
            && (a.Read? ==> s.pool.readers[r].phase == R.Reading && t.pool.readers[r].phase == R.Offering(a.ok))
            && (a.Hand? ==> s.pool.readers[r].phase.Offering? && !t.pool.readers[r].phase.Offering?
                            && t.pool.offers[r] == Some(R.Offer(R.SlotNow(c, s, r), s.pool.readers[r].part, s.pool.readers[r].phase.ok)))
            && (a.Quit? ==> t.pool.offers == s.pool.offers && t.pool.readers[r].phase == R.Gone)
  {
    hide R.Plan.Readers, R.Plan.Slots, R.Plan.SlotOf, R.ReadersGone;
  }

  lemma FreshClaim(c: R.Plan, s: State, t: State, a: R.Step)
    requires Fresh(c, s) && RS.Safe(c, s.slots) && R.ReaderEnabled(c, s.slots, a) && (a.Claim? || a.Read?)
    requires t.slots == R.DoReader(c, s.slots, a) && RS.Safe(c, t.slots) && t.contents == Contents(c, s.slots, s.contents, a)
    ensures Fresh(c, t)
  {
    ShapeOf(c, s.slots);
    ReaderEffect(c, s.slots, s.contents, a);
    var r := RS.ReaderOf(a);
    assert R.SlotNow(c, t.slots, r) == R.SlotNow(c, s.slots, r);
    FillingAlone(c, if a.Claim? then t.slots else s.slots, r);
    hide R.DoReader, R.ReaderEnabled, RS.Safe, R.Plan.Readers, R.Plan.Slots, R.Plan.SlotOf;
    forall q | 0 <= q < |t.slots.pool.readers| ensures ReaderFresh(c, t.contents, t.slots.pool.readers[q], q) {
      assert ReaderFresh(c, s.contents, s.slots.pool.readers[q], q);
    }
    forall q | 0 <= q < |t.slots.pool.offers| ensures OfferFresh(t.contents, t.slots.pool.offers[q]) {
      assert OfferFresh(s.contents, s.slots.pool.offers[q]);
    }
  }

  lemma FreshHand(c: R.Plan, s: State, t: State, a: R.Step)
    requires Fresh(c, s) && RS.Safe(c, s.slots) && R.ReaderEnabled(c, s.slots, a) && (a.Hand? || a.Quit?)
    requires t.slots == R.DoReader(c, s.slots, a) && t.contents == s.contents
    ensures Fresh(c, t)
  {
    ShapeOf(c, s.slots);
    ReaderEffect(c, s.slots, s.contents, a);
    var r := RS.ReaderOf(a);
    hide R.DoReader, R.ReaderEnabled, RS.Safe, R.Plan.Readers, R.Plan.Slots, R.Plan.SlotOf;
    assert ReaderFresh(c, s.contents, s.slots.pool.readers[r], r);
    forall q | 0 <= q < |t.slots.pool.readers| ensures ReaderFresh(c, t.contents, t.slots.pool.readers[q], q) {
      assert ReaderFresh(c, s.contents, s.slots.pool.readers[q], q);
    }
    forall q | 0 <= q < |t.slots.pool.offers| ensures OfferFresh(t.contents, t.slots.pool.offers[q]) {
      assert OfferFresh(s.contents, s.slots.pool.offers[q]);
    }
  }

  lemma ShapeOf(c: R.Plan, s: R.State)
    requires RS.Safe(c, s)
    ensures RS.Shape(c, s) && RS.Sizes(c, s) && RD.PlaceValid(c, s.main)
  {
    RD.ShapePlace(c, s);
    hide R.Plan.Readers, R.Plan.Slots;
  }

  lemma QueueSame(c: R.Plan, s: State, t: State)
    requires QueueLinked(c, s) && t.contents == s.contents
    requires Cleared(t) || (!Cleared(s) && t.slots.workChan == s.slots.workChan && t.pipe.workChan == s.pipe.workChan)
    ensures QueueLinked(c, t)
  {
    hide ItemOf;
  }

  lemma WorkersSame(c: R.Plan, s: State, t: State)
    requires WorkersLinked(c, s) && t.contents == s.contents
    requires t.slots.workers == s.slots.workers && t.pipe.pool.workers == s.pipe.pool.workers
    ensures WorkersLinked(c, t)
  {
    hide WorkerLinked;
  }

  lemma LinkedReader(c: R.Plan, s: State, t: State, a: R.Step)
    requires Linked(c, s) && RS.Safe(c, s.slots) && R.ReaderEnabled(c, s.slots, a)
    requires t == State(R.DoReader(c, s.slots, a), s.pipe, Contents(c, s.slots, s.contents, a)) && RS.Safe(c, t.slots)
    ensures Linked(c, t)
  {
    hide QueueLinked, WorkersLinked, Fresh, RS.Safe;
    ShapeOf(c, s.slots);
    assert |s.contents| == c.Slots() by { FreshSize(c, s); }
    RS.ReaderFrame(c, s.slots, a);
    if a.Claim? || a.Read? {
      FreshClaim(c, s, t, a);
      ReaderEffect(c, s.slots, s.contents, a);
      var r := RS.ReaderOf(a);
      var slot := R.SlotNow(c, s.slots, r);
      FillingFree(c, if a.Claim? then t.slots else s.slots, r);
      hide R.DoReader, R.ReaderEnabled, R.Plan.Readers, R.Plan.Slots;
      var v := if a.Claim? then None else if a.ok then Some(s.slots.pool.readers[r].part) else s.contents[slot];
      assert t.contents == s.contents[slot := v];
      WorkersOverwritten(c, s, t, slot, v);
      QueueOverwritten(c, s, t, slot, v);
    } else {
      FreshHand(c, s, t, a);
      hide R.DoReader, R.ReaderEnabled, R.Plan.Readers, R.Plan.Slots;
      QueueLinkedOr(c, s, t);
      WorkersSame(c, s, t);
    }
  }

  lemma QueueLinkedOr(c: R.Plan, s: State, t: State)
    requires QueueLinked(c, s) && t.contents == s.contents && t.slots.main == s.slots.main && t.pipe == s.pipe
    requires t.slots.workChan == s.slots.workChan
    ensures QueueLinked(c, t)
  {
    if !Cleared(s) { QueueSame(c, s, t); }
  }

  lemma FreshSize(c: R.Plan, s: State)
    requires Fresh(c, s)
    ensures |s.contents| == c.Slots()
  {
  }

  lemma FillingFree(c: R.Plan, s: R.State, r: nat)
    requires RS.Safe(c, s) && r < c.Readers() && r < |s.pool.readers| && s.pool.readers[r].phase == R.Reading
    ensures var slot := R.SlotNow(c, s, r);
            && slot < c.Slots()
            && R.Fenced(slot) !in s.workChan && (forall i :: 0 <= i < |s.workers| ==> s.workers[i] != R.Holding(R.Fenced(slot)))
  {
    hide RS.Safe;
    RS.FillingIsExclusive(c, s, r);
  }

  // ---------- The caller, on its own ----------

  predicate OfCaller(a: R.Step) {
    a.Receive? || a.Interrupt? || a.AddFence? || a.Refuse? || a.EndPartition? || a.AllParts?
  }

  lemma CallerFrame(c: R.Plan, s: R.State, a: R.Step)
    requires RS.Shape(c, s) && R.MainEnabled(c, s, a) && OfCaller(a)
    ensures var t := R.DoMain(c, s, a);
            && t.workers == s.workers && t.workChan == s.workChan && t.flags == s.flags
            && t.pool.readers == s.pool.readers && |t.pool.offers| == |s.pool.offers|
            && (forall r :: 0 <= r < |s.pool.offers| ==> t.pool.offers[r] == s.pool.offers[r] || t.pool.offers[r].None?)
            && !t.main.phase.Done? && !s.main.phase.Done? && (s.main.phase == R.Receiving || s.main.phase.Dispatching?)
            && (t.main.phase == R.Failed || (RD.OnCourse(t.main) && t.main.phase != R.Draining))
            && (t.main.phase.Dispatching? && !a.Receive? ==>
                  s.main.phase.Dispatching? && t.main.held == s.main.held && t.main.part == s.main.part)
  {
    hide R.Plan.Readers, R.Plan.Slots, R.ReadersGone, R.Sub, R.Add;
  }

  lemma ReceivedFresh(c: R.Plan, s: State)
    requires Fresh(c, s) && RS.Safe(c, s.slots) && R.MainEnabled(c, s.slots, R.Receive)
    ensures MainFresh(s.contents, R.DoMain(c, s.slots, R.Receive).main)
  {
    RS.ReceivesInOrder(c, s.slots);
    assert OfferFresh(s.contents, s.slots.pool.offers[R.Turn(c, s.slots)]);
    hide R.Plan.Readers, R.Plan.Slots, R.Turn, RS.Strides, RS.OneToken, RS.FencesExact, RS.FencedSlotsHeld;
  }

  lemma FreshCaller(c: R.Plan, s: State, t: State, a: R.Step)
    requires Fresh(c, s) && RS.Safe(c, s.slots) && R.MainEnabled(c, s.slots, a) && OfCaller(a)
    requires t.slots == R.DoMain(c, s.slots, a) && t.contents == s.contents
    ensures Fresh(c, t)
  {
    ShapeOf(c, s.slots);
    CallerFrame(c, s.slots, a);
    if a.Receive? {
      ReceivedFresh(c, s);
    }
    hide R.DoMain, R.MainEnabled, RS.Safe, ReaderFresh, R.Plan.Slots;
    forall r | 0 <= r < |t.slots.pool.offers| ensures OfferFresh(t.contents, t.slots.pool.offers[r]) {
      assert OfferFresh(s.contents, s.slots.pool.offers[r]);
    }
  }

  lemma SentBy(c: R.Plan, s: R.State, a: R.Step)
    requires RS.Safe(c, s) && R.MainEnabled(c, s, a) && RS.Safe(c, R.DoMain(c, s, a)) && RD.OnCourse(R.DoMain(c, s, a).main)
    ensures RD.OnCourse(s.main) && Sent(c, R.DoMain(c, s, a).main) == Sent(c, s.main) + R.One(a.SendPlain? || a.SendFenced?)
  {
    ShapeOf(c, s);
    ShapeOf(c, R.DoMain(c, s, a));
    RD.DispatchedBy(c, s, a);
    hide R.DoMain, R.MainEnabled, RD.Dispatched, RD.PlaceValid, RS.Safe, RD.OnCourse;
  }

  lemma MainCaller(c: R.Plan, s: State, a: R.Step)
    requires MainLinked(c, s.slots.main, s.pipe.main) && RS.Safe(c, s.slots) && R.MainEnabled(c, s.slots, a) && OfCaller(a)
    requires RS.Safe(c, R.DoMain(c, s.slots, a))
    ensures MainLinked(c, R.DoMain(c, s.slots, a).main, s.pipe.main)
  {
    ShapeOf(c, s.slots);
    CallerFrame(c, s.slots, a);
    if RD.OnCourse(R.DoMain(c, s.slots, a).main) {
      SentBy(c, s.slots, a);
    }
    hide R.DoMain, R.MainEnabled, Sent, RS.Safe;
  }

  lemma LinkedCaller(c: R.Plan, s: State, t: State, a: R.Step)
    requires Linked(c, s) && RS.Safe(c, s.slots) && R.MainEnabled(c, s.slots, a) && OfCaller(a)
    requires t == s.(slots := R.DoMain(c, s.slots, a)) && RS.Safe(c, t.slots)
    ensures Linked(c, t)
  {
    hide QueueLinked, WorkersLinked, Fresh, RS.Safe;
    ShapeOf(c, s.slots);
    CallerFrame(c, s.slots, a);
    FreshCaller(c, s, t, a);
    MainCaller(c, s, a);
    assert s.pipe.main.phase == P.Finishing;
    hide R.DoMain, R.MainEnabled, MainLinked;
    QueueSame(c, s, t);
    WorkersSame(c, s, t);
  }

  // ---------- Waiters and released entries ----------

  lemma LinkedWake(c: R.Plan, s: State, t: State, slot: nat)
    requires Linked(c, s) && RS.Safe(c, s.slots) && R.OtherEnabled(c, s.slots, R.Wake(slot))
    requires t == s.(slots := R.DoOther(c, s.slots, R.Wake(slot)))
    ensures Linked(c, t)
  {
    ShapeOf(c, s.slots);
    RS.OtherFrame(c, s.slots, R.Wake(slot));
    assert t.slots.flags == s.slots.flags;
    hide R.DoOther, R.OtherEnabled, RS.Safe, ReaderFresh, OfferFresh, R.Plan.Slots, WorkerLinked, ItemOf, Sent;
  }

  // Both machines replace their worker i.
  lemma WorkersTurn(c: R.Plan, s: State, t: State, i: nat)
    requires WorkersLinked(c, s) && t.contents == s.contents && i < |s.slots.workers| == |t.slots.workers|
    requires |t.pipe.pool.workers| == |t.slots.workers|
    requires t.slots.workers == s.slots.workers[i := t.slots.workers[i]]
    requires t.pipe.pool.workers == s.pipe.pool.workers[i := t.pipe.pool.workers[i]]
    requires WorkerLinked(c, t.contents, t.slots.workers[i], t.pipe.pool.workers[i])
    ensures WorkersLinked(c, t)
  {
    hide WorkerLinked;
  }

  lemma LinkedRelease(c: R.Plan, s: State, t: State, i: nat)
    requires Linked(c, s) && RS.Safe(c, s.slots) && R.WorkerEnabled(c, s.slots, R.Release(i)) && IsChecked(WorkerAt(s, i))
    requires t == s.(slots := R.DoWorker(c, s.slots, R.Release(i)))
    ensures Linked(c, t)
  {
    RS.WorkerFrame(c, s.slots, R.Release(i));
    assert t.slots.flags == s.slots.flags && t.slots.workers[i] == R.Busy;
    hide R.DoWorker, R.WorkerEnabled, RS.Safe, ReaderFresh, OfferFresh, R.Plan.Slots, ItemOf, Sent;
    WorkersTurn(c, s, t, i);
    QueueLinkedOr(c, s, t);
    hide WorkersLinked, QueueLinked;
  }

  lemma SlotsKinds(c: R.Plan, s: State, a: R.Step)
    requires R.Enabled(c, s.slots, a) && OfSlots(s, a)
    ensures a.Claim? || a.Read? || a.Hand? || a.Quit? <==> R.ReaderEnabled(c, s.slots, a)
    ensures OfCaller(a) <==> R.MainEnabled(c, s.slots, a)
    ensures a.Release? <==> R.WorkerEnabled(c, s.slots, a)
    ensures a.Wake? <==> R.OtherEnabled(c, s.slots, a)
    ensures a.Release? ==> IsChecked(WorkerAt(s, a.i))
  {
    hide R.Plan.Readers, R.Plan.Slots, R.ReadersGone, R.WorkersLeft;
  }

  lemma LinkedSlots(c: R.Plan, j: P.Job, s: State, a: R.Step)
    requires Linked(c, s) && RS.Safe(c, s.slots) && Enabled(c, j, s, Slots(a))
    ensures Linked(c, Do(c, j, s, Slots(a)))
  {
    var t := Do(c, j, s, Slots(a));
    SlotsKinds(c, s, a);
    RS.SafeKeeps(c, s.slots, a);
    hide Linked, RS.Safe, R.ReaderEnabled, R.MainEnabled, R.WorkerEnabled, R.OtherEnabled, R.DoReader, R.DoMain, R.DoWorker, R.DoOther;
    if R.ReaderEnabled(c, s.slots, a) {
      LinkedReader(c, s, t, a);
    } else if R.MainEnabled(c, s.slots, a) {
      LinkedCaller(c, s, t, a);
    } else if R.WorkerEnabled(c, s.slots, a) {
      LinkedRelease(c, s, t, a.i);
    } else {
      LinkedWake(c, s, t, a.slot);
    }
  }

  // ---------- The pipeline, on its own ----------

  lemma LinkedInside(c: R.Plan, j: P.Job, s: State, b: P.Step)
    requires Linked(c, s) && P.WorkerEnabled(j, s.pipe, b)
    requires (b.Start? && b.ok) || b.Check? || (b.Build? && b.i < |s.slots.workers| && s.slots.workers[b.i] == R.Busy)
    ensures Linked(c, s.(pipe := P.DoWorker(j, s.pipe, b)))
  {
    var t := s.(pipe := P.DoWorker(j, s.pipe, b));
    var i := b.i;
    PC.WorkerFrame(j, s.pipe, b);
    PC.WorkerMoves(j, s.pipe, b);
    assert WorkerLinked(c, s.contents, s.slots.workers[i], s.pipe.pool.workers[i]);
    assert WorkerLinked(c, t.contents, t.slots.workers[i], t.pipe.pool.workers[i]) by { hide P.BuildBlock, P.TornFits, ItemOf, P.Job.Capacity; }
    assert t.pipe.results == s.pipe.results by { hide P.BuildBlock, P.TornFits, P.Job.Capacity; }
    hide P.DoWorker, P.WorkerEnabled, Fresh, WorkerLinked, Sent;
    WorkersTurn(c, s, t, i);
    hide WorkersLinked;
    if !Cleared(s) { QueueSame(c, s, t); }
  }

  lemma Tail(ms: seq<P.Message>)
    requires |ms| > 0 && !ms[0].failed
    ensures SomeFailed(ms[1..]) <==> SomeFailed(ms)
  {
    if k :| 0 <= k < |ms| && ms[k].failed {
      assert ms[1..][k - 1].failed;
    }
  }

  lemma LinkedWriter(c: R.Plan, j: P.Job, s: State, b: P.Step)
    requires Linked(c, s) && P.WriterEnabled(j, s.pipe, b)
    requires match b case Receive => !HeadFailed(s.pipe) case Emit(_) => !P.DoWriter(j, s.pipe, b).writer.reported
                     case CancelByWriter => s.pipe.pool.cancelled case _ => true
    ensures Linked(c, s.(pipe := P.DoWriter(j, s.pipe, b)))
  {
    var t := s.(pipe := P.DoWriter(j, s.pipe, b));
    PC.WriterFrame(j, s.pipe, b);
    if b.Receive? { Tail(s.pipe.results); }
    WriterReports(j, s.pipe, b);
    hide P.DoWriter, P.WriterEnabled, Fresh, WorkerLinked, Sent, SomeFailed;
    WorkersSame(c, s, t);
    hide WorkersLinked;
    if !Cleared(s) { QueueSame(c, s, t); }
  }

  // What a writer's step does to messages and reports.
  lemma WriterReports(j: P.Job, s: P.State, b: P.Step)
    requires P.WriterEnabled(j, s, b)
    ensures var t := P.DoWriter(j, s, b);
            && t.results == (if b.Receive? then s.results[1..] else s.results)
            && (b.Receive? ==> |s.results| > 0 && t.writer.reported == (s.writer.reported || s.results[0].failed))
            && (!b.Receive? && !b.Emit? ==> t.writer.reported == s.writer.reported)
            && (b.Emit? && s.writer.reported ==> t.writer.reported)
            && (!b.CancelByWriter? ==> t.pool == s.pool)
            && (b.CancelByWriter? ==> t.pool == s.pool.(cancelled := true))
  {
    hide IndexWriter.WriteMetadata, P.Laid;
  }

  lemma LinkedWorkersDone(c: R.Plan, j: P.Job, s: State)
    requires Linked(c, s) && P.MainEnabled(j, s.pipe, P.WorkersDone)
    ensures Linked(c, s.(pipe := P.DoMain(j, s.pipe, P.WorkersDone)))
  {
    var t := s.(pipe := P.DoMain(j, s.pipe, P.WorkersDone));
    hide P.AllExited, Fresh, WorkerLinked, Sent, SomeFailed;
    WorkersSame(c, s, t);
    hide WorkersLinked;
    QueueSame(c, s, t);
  }

  lemma PipeKinds(j: P.Job, s: State, b: P.Step)
    requires P.Enabled(j, s.pipe, b) && OfPipe(j, s, b)
    ensures b.Start? || b.Check? || b.Build? <==> P.WorkerEnabled(j, s.pipe, b)
    ensures b.Receive? || b.Emit? || b.CancelByWriter? || b.CloseDone? || b.WriterLeave? <==> P.WriterEnabled(j, s.pipe, b)
    ensures b.WorkersDone? <==> P.MainEnabled(j, s.pipe, b)
    ensures b.Start? ==> b.ok
    ensures b.Build? ==> b.i < |s.slots.workers| && s.slots.workers[b.i] == R.Busy
    ensures b.CancelByWriter? ==> s.pipe.pool.cancelled
    ensures b.Receive? ==> !HeadFailed(s.pipe)
    ensures b.Emit? ==> !P.Do(j, s.pipe, b).writer.reported
    ensures b != P.CancelParent
  {
    hide P.AllExited, P.TornFits, P.Job.Capacity, P.Laid, P.Do;
  }

  lemma LinkedPipe(c: R.Plan, j: P.Job, s: State, b: P.Step)
    requires Linked(c, s) && Enabled(c, j, s, Pipe(b))
    ensures Linked(c, Do(c, j, s, Pipe(b)))
  {
    PipeKinds(j, s, b);
    hide Linked, OfPipe, P.WorkerEnabled, P.WriterEnabled, P.MainEnabled, P.DoWorker, P.DoMain, P.DoWriter;
    if P.MainEnabled(j, s.pipe, b) {
      LinkedWorkersDone(c, j, s);
    } else if P.WorkerEnabled(j, s.pipe, b) {
      LinkedInside(c, j, s, b);
    } else {
      LinkedWriter(c, j, s, b);
    }
  }

  // ---------- Together: workers ----------

  lemma LinkedTake(c: R.Plan, j: P.Job, s: State, i: nat)
    requires Linked(c, s) && R.WorkerEnabled(c, s.slots, R.Take(i)) && P.WorkerEnabled(j, s.pipe, P.Take(i))
    requires !Cleared(s)
    ensures Linked(c, s.(slots := R.DoWorker(c, s.slots, R.Take(i)), pipe := P.DoWorker(j, s.pipe, P.Take(i))))
  {
    var t := s.(slots := R.DoWorker(c, s.slots, R.Take(i)), pipe := P.DoWorker(j, s.pipe, P.Take(i)));
    RS.WorkerFrame(c, s.slots, R.Take(i));
    assert ItemOf(c, s.contents, s.slots.workChan[0], s.pipe.workChan[0].block);
    hide Fresh, Sent, SomeFailed, ItemOf;
    WorkersTurn(c, s, t, i);
    hide WorkersLinked, WorkerLinked;
  }

  // A worker gives up, is told of a failure, or leaves, in both machines.
  lemma LinkedLeave(c: R.Plan, j: P.Job, s: State, a: R.Step, b: P.Step)
    requires Linked(c, s) && R.WorkerEnabled(c, s.slots, a) && P.WorkerEnabled(j, s.pipe, b)
    requires match b case Abandon(i) => a == R.GiveUp(i) case SendCancelled(i) => a == R.GiveUp(i)
                     case Exit(i) => a == R.Exit(i) case Leave(i) => a == R.Leave(i) case _ => false
    ensures Linked(c, s.(slots := R.DoWorker(c, s.slots, a), pipe := P.DoWorker(j, s.pipe, b)))
  {
    var t := s.(slots := R.DoWorker(c, s.slots, a), pipe := P.DoWorker(j, s.pipe, b));
    var i := a.i;
    RS.WorkerFrame(c, s.slots, a);
    PC.WorkerFrame(j, s.pipe, b);
    PC.WorkerMoves(j, s.pipe, b);
    assert t.pipe.results == s.pipe.results;
    assert WorkerLinked(c, s.contents, s.slots.workers[i], s.pipe.pool.workers[i]);
    assert WorkerLinked(c, t.contents, t.slots.workers[i], t.pipe.pool.workers[i]) && FlagsLinked(t) && t.slots.flags.errorQueued == s.slots.flags.errorQueued
      by { hide ItemOf, Fresh, R.Fences; }
    hide R.DoWorker, R.WorkerEnabled, P.DoWorker, P.WorkerEnabled, Fresh, WorkerLinked, Sent, SomeFailed, R.Fences;
    WorkersTurn(c, s, t, i);
    FreshSame(c, s, t);
    hide WorkersLinked;
    if !Cleared(s) { QueueSame(c, s, t); }
  }

  lemma FreshSame(c: R.Plan, s: State, t: State)
    requires Fresh(c, s) && t.contents == s.contents && t.slots.pool == s.slots.pool && t.slots.main == s.slots.main
    ensures Fresh(c, t)
  {
    hide ReaderFresh, OfferFresh;
  }

  lemma More(ms: seq<P.Message>, m: P.Message)
    ensures SomeFailed(ms + [m]) <==> SomeFailed(ms) || m.failed
  {
    if m.failed { assert (ms + [m])[|ms|].failed; }
    if k :| 0 <= k < |ms| && ms[k].failed { assert (ms + [m])[k].failed; }
  }

  // A worker's message: the block is finished, or failed.
  lemma LinkedSend(c: R.Plan, j: P.Job, s: State, i: nat)
    requires Linked(c, s) && P.WorkerEnabled(j, s.pipe, P.Send(i)) && WorkerAt(s, i).Sending?
    requires R.WorkerEnabled(c, s.slots, if WorkerAt(s, i).message.failed then R.Fail(i) else R.Finish(i))
    ensures var a := if WorkerAt(s, i).message.failed then R.Fail(i) else R.Finish(i);
            Linked(c, s.(slots := R.DoWorker(c, s.slots, a), pipe := P.DoWorker(j, s.pipe, P.Send(i))))
  {
    var a := if WorkerAt(s, i).message.failed then R.Fail(i) else R.Finish(i);
    var b := P.Send(i);
    var t := s.(slots := R.DoWorker(c, s.slots, a), pipe := P.DoWorker(j, s.pipe, b));
    RS.WorkerFrame(c, s.slots, a);
    PC.WorkerFrame(j, s.pipe, b);
    PC.WorkerMoves(j, s.pipe, b);
    More(s.pipe.results, WorkerAt(s, i).message);
    assert t.pipe.results == s.pipe.results + [WorkerAt(s, i).message];
    assert WorkerLinked(c, t.contents, t.slots.workers[i], t.pipe.pool.workers[i]) && FlagsLinked(t)
      && t.slots.flags.errorQueued == (s.slots.flags.errorQueued || WorkerAt(s, i).message.failed) by { hide ItemOf, Fresh, R.Fences; }
    hide R.DoWorker, R.WorkerEnabled, P.DoWorker, P.WorkerEnabled, Fresh, WorkerLinked, Sent, SomeFailed, R.Fences;
    WorkersTurn(c, s, t, i);
    FreshSame(c, s, t);
    hide WorkersLinked;
    if !Cleared(s) { QueueSame(c, s, t); }
  }

  // ---------- Together: cancellation and errors ----------

  // The parent's end, the writer's report, its own failure and its cancellation.
  lemma LinkedReport(c: R.Plan, j: P.Job, s: State, a: R.Step, b: P.Step)
    requires Linked(c, s) && R.OtherEnabled(c, s.slots, a) && P.WriterEnabled(j, s.pipe, b)
    requires match b case Receive => a == R.Report && HeadFailed(s.pipe)
                     case Emit(_) => a == R.WriterFault && P.DoWriter(j, s.pipe, b).writer.reported
                     case CancelByWriter => a == R.CancelByWriter case _ => false
    ensures Linked(c, s.(slots := R.DoOther(c, s.slots, a), pipe := P.DoWriter(j, s.pipe, b)))
  {
    var t := s.(slots := R.DoOther(c, s.slots, a), pipe := P.DoWriter(j, s.pipe, b));
    PC.WriterFrame(j, s.pipe, b);
    WriterReports(j, s.pipe, b);
    assert t.slots == s.slots.(flags := t.slots.flags);
    if k :| 0 <= k < |t.pipe.results| && t.pipe.results[k].failed {
      assert s.pipe.results[if b.Receive? then k + 1 else k].failed;
    }
    hide P.DoWriter, P.WriterEnabled, Fresh, WorkerLinked, Sent;
    WorkersSame(c, s, t);
    FreshSame(c, s, t);
    hide WorkersLinked;
    if !Cleared(s) { QueueSame(c, s, t); }
  }

  lemma LinkedCancel(c: R.Plan, s: State)
    requires Linked(c, s)
    ensures Linked(c, State(s.slots.(flags := s.slots.flags.(parentDone := true, cancelled := true)),
                            s.pipe.(pool := s.pipe.pool.(parentDone := true, cancelled := true)), s.contents))
  {
    hide Fresh, WorkerLinked, Sent, SomeFailed, ItemOf;
    var t := State(s.slots.(flags := s.slots.flags.(parentDone := true, cancelled := true)),
                   s.pipe.(pool := s.pipe.pool.(parentDone := true, cancelled := true)), s.contents);
    FreshSame(c, s, t);
  }

  // ---------- Together: the caller ----------

  lemma {:induction false} BlockAt(c: R.Plan, p: nat, q: nat, k: nat)
    requires p < q <= |c.parts| && k < |c.parts[p]|
    ensures |RD.BeforePart(c, p)| + k < |RD.BeforePart(c, q)|
    ensures RD.BeforePart(c, q)[|RD.BeforePart(c, p)| + k] == RD.Dispatch(p, c.parts[p][k])
  {
    if p < q - 1 {
      BlockAt(c, p, q - 1, k);
    }
  }

  // The block the caller is at.
  lemma NextBlock(c: R.Plan, s: R.State, added: bool, full: bool)
    requires RS.Shape(c, s) && R.AtBlock(c, s, added, full)
    ensures Sent(c, s.main) < |RD.AllBlocks(c)| && RD.AllBlocks(c)[Sent(c, s.main)] == RD.Dispatch(s.main.part, full)
  {
    RD.ShapePlace(c, s);
    BlockAt(c, s.main.part, |c.parts|, s.main.phase.k);
    hide R.Plan.Readers, R.Plan.Slots, RD.BeforePart, RS.Shape;
  }

  lemma SendEffect(c: R.Plan, s: R.State, a: R.Step)
    requires R.MainEnabled(c, s, a) && (a.SendPlain? || a.SendFenced?)
    ensures var t := R.DoMain(c, s, a);
            && R.AtBlock(c, s, a.SendFenced?, a.SendFenced?) && s.main.held.Some?
            && t == s.(workChan := s.workChan + [if a.SendPlain? then R.Plain else R.Fenced(s.main.held.value)], main := t.main)
            && t.main == s.main.(phase := R.Dispatching(s.main.phase.k + 1, false))
  {
  }

  lemma LinkedDispatch(c: R.Plan, j: P.Job, s: State, a: R.Step)
    requires Linked(c, s) && RS.Safe(c, s.slots)
    requires R.MainEnabled(c, s.slots, a) && P.MainEnabled(j, s.pipe, P.Dispatch) && (a.SendPlain? || a.SendFenced?)
    requires RS.Safe(c, R.DoMain(c, s.slots, a))
    ensures Linked(c, s.(slots := R.DoMain(c, s.slots, a), pipe := P.DoMain(j, s.pipe, P.Dispatch)))
  {
    var t := s.(slots := R.DoMain(c, s.slots, a), pipe := P.DoMain(j, s.pipe, P.Dispatch));
    ShapeOf(c, s.slots);
    SendEffect(c, s.slots, a);
    NextBlock(c, s.slots, a.SendFenced?, a.SendFenced?);
    SentBy(c, s.slots, a);
    DispatchEffect(j, s.pipe);
    assert s.slots.main.phase.Dispatching?;
    hide *;
    MainDispatch(c, s.slots.main, t.slots.main, s.pipe.main, t.pipe.main);
    FreshDispatch(c, s, t);
    QueueDispatch(c, s, t, a.SendFenced?);
    WorkersOf(c, s, t);
    JoinLinks(c, t);
  }

  lemma MainDispatch(c: R.Plan, m: R.Main, n: R.Main, p: P.Main, q: P.Main)
    requires m.phase.Dispatching? && n.phase.Dispatching? && MainLinked(c, m, p)
    requires Sent(c, n) == Sent(c, m) + 1 && q.next == p.next + 1 && q.phase == p.phase
    ensures MainLinked(c, n, q) && p.next == Sent(c, m) && p.phase == q.phase == P.Finishing
  {
    hide Sent;
  }

  lemma FreshDispatch(c: R.Plan, s: State, t: State)
    requires Linked(c, s) && t.contents == s.contents && t.slots.pool == s.slots.pool
    requires s.slots.main.phase.Dispatching? && t.slots.main.held == s.slots.main.held && t.slots.main.part == s.slots.main.part
    ensures Fresh(c, t)
    ensures s.slots.main.held.Some? && s.slots.main.held.value < |s.contents|
    ensures s.contents[s.slots.main.held.value] == Some(s.slots.main.part)
  {
    hide ReaderFresh, OfferFresh, QueueLinked, WorkersLinked, ErrorsLinked;
  }

  // The queue, after one more block in the slot held.
  lemma QueueDispatch(c: R.Plan, s: State, t: State, full: bool)
    requires Linked(c, s) && s.slots.main.phase.Dispatching? && t.contents == s.contents && s.pipe.main.phase == P.Finishing
    requires s.slots.main.held.Some? && s.slots.main.held.value < |s.contents|
    requires s.contents[s.slots.main.held.value] == Some(s.slots.main.part)
    requires Sent(c, s.slots.main) < |RD.AllBlocks(c)|
    requires RD.AllBlocks(c)[Sent(c, s.slots.main)] == RD.Dispatch(s.slots.main.part, full)
    requires t.slots.workChan == s.slots.workChan + [if !full then R.Plain else R.Fenced(s.slots.main.held.value)]
    requires t.pipe.workChan == s.pipe.workChan + [P.Work(s.pipe.main.next, s.pipe.main.keysBefore)]
    ensures QueueLinked(c, t)
  {
    hide WorkersLinked, Fresh, ErrorsLinked, Sent, RD.AllBlocks;
    assert QueueLinked(c, t) by { hide Linked; QueueGrows(c, s, t); }
  }

  // Nothing but queue, caller and slots has changed.
  lemma WorkersOf(c: R.Plan, s: State, t: State)
    requires Linked(c, s) && t.contents == s.contents
    requires t.slots.workers == s.slots.workers && t.slots.flags == s.slots.flags
    requires t.pipe.pool == s.pipe.pool && t.pipe.results == s.pipe.results && t.pipe.writer.reported == s.pipe.writer.reported
    ensures WorkersLinked(c, t) && FlagsLinked(t) && ErrorsLinked(t)
  {
    hide QueueLinked, Fresh, SomeFailed;
    WorkersSame(c, s, t);
  }

  lemma JoinLinks(c: R.Plan, s: State)
    requires QueueLinked(c, s) && WorkersLinked(c, s) && FlagsLinked(s) && ErrorsLinked(s)
    requires MainLinked(c, s.slots.main, s.pipe.main) && Fresh(c, s)
    ensures Linked(c, s)
  {
  }

  lemma DispatchEffect(j: P.Job, s: P.State)
    requires P.MainEnabled(j, s, P.Dispatch)
    ensures var t := P.DoMain(j, s, P.Dispatch);
            && t == s.(main := t.main, workChan := s.workChan + [P.Work(s.main.next, s.main.keysBefore)])
            && t.main.next == s.main.next + 1 && t.main.phase == s.main.phase
  {
  }

  lemma QueueGrows(c: R.Plan, s: State, t: State)
    requires QueueLinked(c, s) && !Cleared(s) && t.contents == s.contents
    requires |t.slots.workChan| > 0 && |t.pipe.workChan| > 0
    requires t.slots.workChan[..|t.slots.workChan| - 1] == s.slots.workChan && t.pipe.workChan[..|t.pipe.workChan| - 1] == s.pipe.workChan
    requires ItemOf(c, t.contents, t.slots.workChan[|s.slots.workChan|], t.pipe.workChan[|s.pipe.workChan|].block)
    ensures QueueLinked(c, t)
  {
    hide ItemOf;
    forall k | 0 <= k < |t.slots.workChan| ensures ItemOf(c, t.contents, t.slots.workChan[k], t.pipe.workChan[k].block) {
      if k < |s.slots.workChan| {
        assert t.slots.workChan[k] == s.slots.workChan[k] && t.pipe.workChan[k] == s.pipe.workChan[k];
      }
    }
  }

  lemma LinkedClose(c: R.Plan, j: P.Job, s: State, b: P.Step)
    requires Linked(c, s) && R.MainEnabled(c, s.slots, R.Join) && P.MainEnabled(j, s.pipe, b)
    requires (b.CloseWork? && s.slots.main.phase == R.Joining) || (b.Abort? && s.slots.main.phase == R.Failed)
    ensures Linked(c, s.(slots := R.DoMain(c, s.slots, R.Join), pipe := P.DoMain(j, s.pipe, b)))
  {
    var t := s.(slots := R.DoMain(c, s.slots, R.Join), pipe := P.DoMain(j, s.pipe, b));
    hide R.ReadersGone, WorkerLinked, ReaderFresh, OfferFresh, Sent, SomeFailed, ItemOf, P.Job.KeysBefore;
    WorkersSame(c, s, t);
    assert QueueLinked(c, t);
  }

  // Returning, in each machine.
  lemma SlotsReturn(c: R.Plan, s: R.State, a: R.Step)
    requires R.MainEnabled(c, s, a) && (a == R.Released || a.Conclude?)
    ensures var t := R.DoMain(c, s, a);
            && t == s.(main := t.main, workChan := t.workChan, fences := t.fences)
            && (a.Conclude? ==> s.main.phase == R.Draining && t.workChan == s.workChan && t.main.phase == R.Done(true)
                                && t.main.result == Some(a.finalized && !s.flags.groupFailed && !s.flags.reported))
            && (a == R.Released ==> s.main.phase == R.Shutting && t.main.phase == R.Done(false) && t.main.result == Some(false))
  {
    hide R.WorkersLeft, R.ReleaseAll;
  }

  lemma PipeReturn(j: P.Job, s: P.State, io: bool)
    requires P.MainEnabled(j, s, P.Conclude(io)) && PC.Inv(j, s)
    ensures var t := P.DoMain(j, s, P.Conclude(io));
            && t.workChan == s.workChan && t.pool == s.pool && t.results == s.results && t.writer.reported == s.writer.reported
            && s.main.phase in {P.DrainFailed, P.Draining, P.Stopped}
            && t.main.phase == P.Returned(s.main.phase == P.Draining && !s.pool.groupFailed && !s.writer.reported && io && P.InSize(j, s.writer.iw))
            && (s.main.phase == P.DrainFailed ==> s.pool.groupFailed)
  {
    hide P.Job.KeysBefore, P.Job.Capacity, PC.Workers, PC.Poisoned, P.InSize, P.Laid;
  }

  lemma LinkedReturn(c: R.Plan, j: P.Job, s: State, a: R.Step, io: bool)
    requires Linked(c, s) && PC.Inv(j, s.pipe) && R.MainEnabled(c, s.slots, a) && P.MainEnabled(j, s.pipe, P.Conclude(io))
    requires a == R.Released || a == R.Conclude(io && P.InSize(j, s.pipe.writer.iw))
    ensures Linked(c, s.(slots := R.DoMain(c, s.slots, a), pipe := P.DoMain(j, s.pipe, P.Conclude(io))))
  {
    var t := s.(slots := R.DoMain(c, s.slots, a), pipe := P.DoMain(j, s.pipe, P.Conclude(io)));
    SlotsReturn(c, s.slots, a);
    PipeReturn(j, s.pipe, io);
    hide PC.Inv, R.MainEnabled, R.DoMain, P.MainEnabled, P.DoMain, QueueLinked, WorkersLinked, Fresh, ErrorsLinked, P.InSize;
    WorkersOf(c, s, t);
    FreshReturn(c, s, t);
    QueueSame(c, s, t);
  }

  lemma FreshReturn(c: R.Plan, s: State, t: State)
    requires Fresh(c, s) && t.contents == s.contents && t.slots.pool == s.slots.pool && t.slots.main.phase.Done?
    ensures Fresh(c, t)
  {
    hide ReaderFresh, OfferFresh;
  }

  // ---------- Every step ----------

  // A worker that can take work: no teardown has emptied the queue.
  lemma NotCleared(c: R.Plan, j: P.Job, s: State, i: nat)
    requires RR.Causes(c, s.slots) && PC.Workers(s.pipe) && i < |s.slots.workers| && i < |s.pipe.pool.workers|
    requires s.slots.workers[i] == R.Idle && !s.pipe.pool.workers[i].Exited?
    ensures !Cleared(s)
  {
    hide R.Plan.Readers, R.Plan.Slots;
  }

  lemma PairKinds(c: R.Plan, j: P.Job, s: State, a: R.Step, b: P.Step)
    requires Enabled(c, j, s, Both(a, b))
    ensures b.CancelParent? || b.Receive? || b.Emit? || b.CancelByWriter? || b.Dispatch? || b.CloseWork? || b.Abort? || b.Conclude?
            || b.Take? || b.Abandon? || b.SendCancelled? || b.Send? || b.Exit? || b.Leave?
    ensures b.CancelParent? ==> a == R.CancelParent && R.OtherEnabled(c, s.slots, a)
    ensures b.Receive? || b.Emit? || b.CancelByWriter? ==> R.OtherEnabled(c, s.slots, a) && P.WriterEnabled(j, s.pipe, b)
    ensures b.Dispatch? || b.CloseWork? || b.Abort? || b.Conclude? ==> R.MainEnabled(c, s.slots, a) && P.MainEnabled(j, s.pipe, b)
    ensures b.Take? || b.Abandon? || b.SendCancelled? || b.Send? || b.Exit? || b.Leave? ==>
              R.WorkerEnabled(c, s.slots, a) && P.WorkerEnabled(j, s.pipe, b)
  {
    hide R.Plan.Readers, R.Plan.Slots, R.ReadersGone, R.WorkersLeft, P.AllExited, P.TornFits, P.Job.Capacity, P.Laid, P.Do, P.InSize;
  }

  lemma SlotsDo(c: R.Plan, s: R.State, a: R.Step)
    requires R.Enabled(c, s, a)
    ensures R.MainEnabled(c, s, a) ==> R.Do(c, s, a) == R.DoMain(c, s, a)
    ensures R.WorkerEnabled(c, s, a) ==> R.Do(c, s, a) == R.DoWorker(c, s, a)
    ensures R.OtherEnabled(c, s, a) ==> R.Do(c, s, a) == R.DoOther(c, s, a)
  {
    hide R.DoMain, R.DoWorker, R.DoOther, R.DoReader, R.Plan.Readers, R.Plan.Slots, R.ReadersGone, R.WorkersLeft;
  }

  lemma PipeDo(j: P.Job, s: P.State, b: P.Step)
    requires P.Enabled(j, s, b)
    ensures P.MainEnabled(j, s, b) ==> P.Do(j, s, b) == P.DoMain(j, s, b)
    ensures P.WorkerEnabled(j, s, b) ==> P.Do(j, s, b) == P.DoWorker(j, s, b)
    ensures P.WriterEnabled(j, s, b) ==> P.Do(j, s, b) == P.DoWriter(j, s, b)
    ensures b.CancelParent? ==> P.Do(j, s, b) == s.(pool := s.pool.(parentDone := true, cancelled := true))
  {
    hide P.DoMain, P.DoWorker, P.DoWriter, P.AllExited, P.TornFits, P.Job.Capacity, P.Laid;
  }

  lemma LinkedWorkers(c: R.Plan, j: P.Job, s: State, a: R.Step, b: P.Step)
    requires Linked(c, s) && RR.Sound(c, s.slots) && PR.Sound(j, s.pipe) && Enabled(c, j, s, Both(a, b))
    requires R.WorkerEnabled(c, s.slots, a) && P.WorkerEnabled(j, s.pipe, b)
    ensures Linked(c, s.(slots := R.DoWorker(c, s.slots, a), pipe := P.DoWorker(j, s.pipe, b)))
  {
    hide RS.Safe, RR.Causes, PC.Inv, Linked, R.DoWorker, P.DoWorker;
    if b.Take? {
      assert !Cleared(s) by { WorkersOpen(j, s.pipe); NotCleared(c, j, s, b.i); }
      LinkedTake(c, j, s, b.i);
    } else if b.Send? {
      LinkedSend(c, j, s, b.i);
    } else {
      LinkedLeave(c, j, s, a, b);
    }
  }

  lemma WorkersOpen(j: P.Job, s: P.State)
    requires PR.Sound(j, s)
    ensures PC.Workers(s) && PC.Inv(j, s)
  {
    hide PC.Workers;
  }

  lemma LinkedMain(c: R.Plan, j: P.Job, s: State, a: R.Step, b: P.Step)
    requires Linked(c, s) && RS.Safe(c, s.slots) && PC.Inv(j, s.pipe) && Enabled(c, j, s, Both(a, b))
    requires b.Dispatch? || b.CloseWork? || b.Abort? || b.Conclude?
    requires R.MainEnabled(c, s.slots, a) && P.MainEnabled(j, s.pipe, b) && RS.Safe(c, R.DoMain(c, s.slots, a))
    ensures Linked(c, s.(slots := R.DoMain(c, s.slots, a), pipe := P.DoMain(j, s.pipe, b)))
  {
    hide RS.Safe, PC.Inv, Linked, R.DoMain, P.DoMain, P.InSize, R.MainEnabled, P.MainEnabled, P.Do, R.Enabled, P.Enabled;
    if b.Dispatch? {
      LinkedDispatch(c, j, s, a);
    } else if b.Conclude? {
      LinkedReturn(c, j, s, a, b.io);
    } else {
      LinkedClose(c, j, s, b);
    }
  }

  lemma LinkedOther(c: R.Plan, j: P.Job, s: State, a: R.Step, b: P.Step)
    requires Linked(c, s) && Enabled(c, j, s, Both(a, b)) && (b.Receive? || b.Emit? || b.CancelByWriter?)
    requires R.OtherEnabled(c, s.slots, a) && P.WriterEnabled(j, s.pipe, b)
    ensures Linked(c, s.(slots := R.DoOther(c, s.slots, a), pipe := P.DoWriter(j, s.pipe, b)))
  {
    PipeDo(j, s.pipe, b);
    hide Linked, R.DoOther, P.DoWriter, P.Do, R.OtherEnabled, P.WriterEnabled, R.Enabled, P.Enabled;
    LinkedReport(c, j, s, a, b);
  }

  lemma LinkedBoth(c: R.Plan, j: P.Job, s: State, a: R.Step, b: P.Step)
    requires Linked(c, s) && RR.Sound(c, s.slots) && PR.Sound(j, s.pipe) && Enabled(c, j, s, Both(a, b))
    ensures Linked(c, Do(c, j, s, Both(a, b)))
  {
    PairKinds(c, j, s, a, b);
    assert R.Enabled(c, s.slots, a) && P.Enabled(j, s.pipe, b);
    SlotsDo(c, s.slots, a);
    PipeDo(j, s.pipe, b);
    RS.SafeKeeps(c, s.slots, a);
    WorkersOpen(j, s.pipe);
    hide *;
    DoBoth(c, j, s, a, b);
    SoundIs(c, s.slots);
    if b.CancelParent? {
      CancelIs(c, s.slots);
      LinkedCancel(c, s);
    } else if b.Dispatch? || b.CloseWork? || b.Abort? || b.Conclude? {
      LinkedMain(c, j, s, a, b);
    } else if b.Receive? || b.Emit? || b.CancelByWriter? {
      LinkedOther(c, j, s, a, b);
    } else {
      LinkedWorkers(c, j, s, a, b);
    }
  }

  lemma SoundIs(c: R.Plan, s: R.State)
    requires RR.Sound(c, s)
    ensures RS.Safe(c, s) && RR.Causes(c, s)
  {
  }

  lemma DoBoth(c: R.Plan, j: P.Job, s: State, a: R.Step, b: P.Step)
    requires Enabled(c, j, s, Both(a, b))
    ensures R.Enabled(c, s.slots, a) && P.Enabled(j, s.pipe, b)
    ensures Do(c, j, s, Both(a, b)) == s.(slots := R.Do(c, s.slots, a), pipe := P.Do(j, s.pipe, b))
  {
    hide R.Enabled, P.Enabled, R.Do, P.Do, Paired;
  }

  lemma CancelIs(c: R.Plan, s: R.State)
    requires R.OtherEnabled(c, s, R.CancelParent)
    ensures R.DoOther(c, s, R.CancelParent) == s.(flags := s.flags.(parentDone := true, cancelled := true))
  {
  }

  /** Every step of either machine, or of both, keeps what each promises and what holds between
      them. */
  lemma GoodKeeps(c: R.Plan, j: P.Job, s: State, step: Step)
    requires Good(c, j, s) && Enabled(c, j, s, step)
    ensures Good(c, j, Do(c, j, s, step))
  {
    hide Linked, RS.Safe, RR.Causes, PR.Sound, R.Enabled, P.Enabled, R.Do, P.Do, OfSlots, OfPipe, Paired, Contents, Fits;
    assert j.Valid() by { FitsValid(c, j); }
    match step
    case Slots(a) =>
      RR.SoundKeeps(c, s.slots, a);
      LinkedSlots(c, j, s, a);
    case Pipe(b) =>
      PR.SoundKeeps(j, s.pipe, b);
      LinkedPipe(c, j, s, b);
    case Both(a, b) =>
      RR.SoundKeeps(c, s.slots, a);
      PR.SoundKeeps(j, s.pipe, b);
      LinkedBoth(c, j, s, a, b);
  }

  lemma FitsValid(c: R.Plan, j: P.Job)
    requires Fits(c, j)
    ensures j.Valid() && c.Valid() && |RD.AllBlocks(c)| == |j.blocks|
  {
    hide P.Job.Valid, RD.AllBlocks;
  }

  lemma InitGood(c: R.Plan, j: P.Job, file: seq<Byte>)
    requires Fits(c, j) && Counted(j)
    ensures Good(c, j, Init(c, j, file))
  {
    hide Fits, Counted;
    FitsValid(c, j);
    var s := Init(c, j, file);
    RR.ReachedSound(c, [], s.slots);
    StartSound(j, file);
    StartLinked(c, j, file);
  }

  lemma StartSound(j: P.Job, file: seq<Byte>)
    requires Counted(j)
    ensures PR.Sound(j, P.Init(j, file).(main := P.Init(j, file).main.(phase := P.Finishing)))
  {
    Begins(j, file);
    assert j.Valid();
    hide PR.Sound, Counted, P.Reaches;
    PN.ReachedSound(j, file, [P.Finish], P.Init(j, file).(main := P.Init(j, file).main.(phase := P.Finishing)));
  }

  lemma StartLinked(c: R.Plan, j: P.Job, file: seq<Byte>)
    requires Fits(c, j)
    ensures Linked(c, Init(c, j, file))
  {
    hide P.Job.Valid, RD.AllBlocks, R.Plan.Slots, R.Plan.Readers;
    assert RD.Dispatched(c, R.Init(c).main) == [];
  }
}
