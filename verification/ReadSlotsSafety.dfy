/** The slot protocol: one token a slot, fences that count exactly the outstanding items, and
    partitions consumed in order. */
module ReadSlotsSafety {
  import opened Basics
  import opened ReadSlots
  import Encoding

  // ---------- Counting ----------

  function ItemCount(items: seq<Item>, slot: nat): nat {
    if |items| == 0 then 0 else One(items[0] == Fenced(slot)) + ItemCount(items[1..], slot)
  }

  function Holds(w: Worker, slot: nat): bool { w == Holding(Fenced(slot)) }

  function HeldCount(ws: seq<Worker>, slot: nat): nat {
    if |ws| == 0 then 0 else One(Holds(ws[0], slot)) + HeldCount(ws[1..], slot)
  }

  lemma {:induction false} ItemAppend(items: seq<Item>, item: Item, slot: nat)
    ensures ItemCount(items + [item], slot) == ItemCount(items, slot) + One(item == Fenced(slot))
  {
    if |items| > 0 {
      ItemAppend(items[1..], item, slot);
      assert (items + [item])[1..] == items[1..] + [item];
    }
  }

  lemma {:induction false} HeldSet(ws: seq<Worker>, i: nat, w: Worker, slot: nat)
    requires i < |ws|
    ensures HeldCount(ws[i := w], slot) + One(Holds(ws[i], slot)) == HeldCount(ws, slot) + One(Holds(w, slot))
  {
    if i == 0 {
      assert ws[0 := w][1..] == ws[1..];
    } else {
      HeldSet(ws[1..], i - 1, w, slot);
      assert ws[i := w][1..] == ws[1..][i - 1 := w];
    }
  }

  lemma {:induction false} ItemExists(items: seq<Item>, slot: nat)
    ensures ItemCount(items, slot) > 0 <==> Fenced(slot) in items
  {
    if |items| > 0 {
      ItemExists(items[1..], slot);
      assert items == [items[0]] + items[1..];
    }
  }

  lemma {:induction false} HolderExists(ws: seq<Worker>, slot: nat)
    ensures HeldCount(ws, slot) > 0 <==> exists i :: 0 <= i < |ws| && Holds(ws[i], slot)
  {
    if |ws| > 0 {
      HolderExists(ws[1..], slot);
      if i :| 0 <= i < |ws| && Holds(ws[i], slot) {
        if i > 0 {
          assert Holds(ws[1..][i - 1], slot);
        }
      }
      if i :| 0 <= i < |ws[1..]| && Holds(ws[1..][i], slot) {
        assert Holds(ws[i + 1], slot);
      }
    }
  }

  // The fenced items of a slot that some worker has not released yet.
  ghost function Outstanding(s: State, slot: nat): nat {
    ItemCount(s.workChan, slot) + HeldCount(s.workers, slot)
    + One(s.main.phase.Dispatching? && s.main.phase.added && s.main.held == Some(slot))
  }

  // Reader r holds the slot: it fills it, or offers what it read.
  ghost predicate Has(c: Plan, reader: Reader, r: nat, slot: nat) {
    (reader.phase == Reading || reader.phase.Offering?) && c.SlotOf(r, reader.cycle) == slot
  }

  ghost predicate Offers(offer: Option<Offer>, slot: nat) {
    offer.Some? && offer.value.slot == slot
  }

  ghost predicate Sizes(c: Plan, s: State) {
    && |s.pool.readers| == |s.pool.offers| == c.Readers()
    && |s.pool.ready| == |s.fences| == c.Slots() && |s.workers| == c.workers
  }

  // The slot's token: in its ready channel, with its reader, in the reader's result channel,
  // with the caller, or with a goroutine waiting for its fence.
  ghost function Tokens(c: Plan, s: State, slot: nat): nat
    requires Sizes(c, s) && slot < c.Slots()
  {
    var r := slot / SLOTS_PER_READER;
    s.pool.ready[slot] + One(r < c.Readers() && Has(c, s.pool.readers[r], r, slot))
    + One(r < c.Readers() && Offers(s.pool.offers[r], slot)) + One(s.main.held == Some(slot)) + s.waiters[slot]
  }

  // ---------- The invariant ----------

  ghost predicate Shape(c: Plan, s: State) {
    var m := s.main;
    && c.Valid() && Sizes(c, s)
    && m.part <= |c.parts| && (m.held.Some? ==> m.held.value < c.Slots() && m.part < |c.parts|)
    && (m.phase.Dispatching? ==> m.held.Some? && m.phase.k <= |c.parts[m.part]|)
    && (m.phase == Receiving || m.phase == Joining || m.phase == Draining || m.phase == Done(true) ==> m.held.None?)
    && (m.phase == Joining || m.phase == Draining || m.phase == Done(true) ==> m.part == |c.parts|)
    && (s.pool.cancelled <==> m.phase == Failed || m.phase == Shutting || m.phase == Done(false))
    && (WorkClosed(m) ==> ReadersGone(s.pool))
    && (m.phase == Done(false) ==> s.workChan == [])
    && (forall slot: nat :: slot in s.waiters ==> slot < c.Slots())
  }

  // How many partitions of reader r are among the first n.
  function Taken(c: Plan, n: nat, r: nat): nat { n / c.Readers() + One(r < n % c.Readers()) }

  // Partition `cycle` of reader r.
  function PartOf(c: Plan, r: nat, cycle: nat): nat { r + c.Readers() * cycle }

  // The partitions the caller has received.
  function Received(m: Main): nat { m.part + One(m.held.Some?) }

  // Reader r is at its next partition, and its offer is the one the caller expects from it.
  ghost predicate InStride(c: Plan, reader: Reader, offer: Option<Offer>, m: Main, r: nat) {
    && reader.part == PartOf(c, r, reader.cycle)
    && (reader.phase != Gone ==> reader.part < |c.parts| && c.SlotOf(r, reader.cycle) < c.Slots())
    && reader.cycle == Taken(c, Received(m), r) + One(offer.Some?)
    && (offer.Some? ==> reader.cycle > 0 && offer.value.part == PartOf(c, r, reader.cycle - 1)
                        && offer.value.slot == c.SlotOf(r, reader.cycle - 1) < c.Slots())
  }

  ghost predicate Strides(c: Plan, s: State)
    requires Sizes(c, s)
  {
    forall r: nat :: r < c.Readers() ==> InStride(c, s.pool.readers[r], s.pool.offers[r], s.main, r)
  }

  // Each slot has one token; after the readers are cancelled, at most one.
  ghost predicate OneToken(c: Plan, s: State)
    requires Sizes(c, s)
  {
    forall slot: nat :: slot < c.Slots() ==> Tokens(c, s, slot) <= 1 && (!s.pool.cancelled ==> Tokens(c, s, slot) == 1)
  }

  // A fence counts the outstanding items of its slot.
  ghost predicate FencesExact(c: Plan, s: State)
    requires Sizes(c, s)
  {
    forall slot: nat :: slot < c.Slots() ==> s.fences[slot] == Outstanding(s, slot)
  }

  // Items of a slot are outstanding only while the caller holds it or a goroutine waits for it.
  ghost predicate FencedSlotsHeld(c: Plan, s: State)
    requires Sizes(c, s)
  {
    forall slot: nat :: slot < c.Slots() && s.fences[slot] > 0 ==> s.main.held == Some(slot) || slot in s.waiters
  }

  ghost predicate Safe(c: Plan, s: State) {
    Shape(c, s) && Strides(c, s) && OneToken(c, s) && FencesExact(c, s) && FencedSlotsHeld(c, s)
  }

  // ---------- Strides and slots ----------

  lemma TakenNext(c: Plan, n: nat, r: nat)
    requires r < c.Readers()
    ensures Taken(c, n + 1, r) == Taken(c, n, r) + One(r == n % c.Readers())
  {
    var R := c.Readers();
    var q, m := n / R, n % R;
    assert n == q * R + m;
    if m + 1 < R {
      Encoding.DivUnique(n + 1, R, q, m + 1);
    } else {
      assert n + 1 == (q + 1) * R + 0;
      Encoding.DivUnique(n + 1, R, q + 1, 0);
    }
  }

  lemma TurnsPart(c: Plan, n: nat)
    ensures PartOf(c, n % c.Readers(), Taken(c, n, n % c.Readers())) == n
  {
  }

  // A reader's slots exist.
  lemma SlotInRange(c: Plan, r: nat, cycle: nat)
    requires r < c.Readers() && PartOf(c, r, cycle) < |c.parts|
    ensures c.SlotOf(r, cycle) < c.Slots() && c.SlotOf(r, cycle) / SLOTS_PER_READER == r
  {
    if c.Slots() < 2 {
      assert c.Readers() * cycle >= cycle;
    }
  }

  lemma SlotsAlternate(c: Plan, r: nat, cycle: nat)
    ensures c.SlotOf(r, cycle) != c.SlotOf(r, cycle + 1)
  {
  }

  lemma InitSafe(c: Plan)
    requires c.Valid()
    ensures Safe(c, Init(c))
  {
    var s := Init(c);
    forall r: nat | r < c.Readers() ensures InStride(c, s.pool.readers[r], s.pool.offers[r], s.main, r) {
      assert Taken(c, 0, r) == 0;
      if r < |c.parts| {
        SlotInRange(c, r, 0);
      }
    }
    forall slot: nat | slot < c.Slots() ensures Outstanding(s, slot) == 0 {
      IdleHoldNothing(s.workers, slot);
    }
  }

  lemma {:induction false} IdleHoldNothing(ws: seq<Worker>, slot: nat)
    requires forall i :: 0 <= i < |ws| ==> ws[i] == Idle
    ensures HeldCount(ws, slot) == 0
  {
    if |ws| > 0 {
      IdleHoldNothing(ws[1..], slot);
    }
  }

  // ---------- Readers ----------

  function ReaderOf(step: Step): int {
    match step
    case Claim(r) => r
    case Read(r, _) => r
    case Hand(r) => r
    case Quit(r) => r
    case _ => -1
  }

  // A reader step changes its reader, its channel, and the ready channel of its slot.
  lemma ReaderFrame(c: Plan, s: State, step: Step)
    requires ReaderEnabled(c, s, step) && Sizes(c, s)
    ensures var t, r := DoReader(c, s, step), ReaderOf(step);
            && 0 <= r < c.Readers() && Sizes(c, t) && s.pool.readers[r].phase != Gone
            && t == s.(pool := t.pool) && t.pool.cancelled == s.pool.cancelled
            && t.pool.readers == s.pool.readers[r := t.pool.readers[r]]
            && t.pool.offers == s.pool.offers[r := t.pool.offers[r]]
            && (if step.Claim? then SlotNow(c, s, r) < c.Slots() && s.pool.ready[SlotNow(c, s, r)] > 0
                                    && t.pool.ready == s.pool.ready[SlotNow(c, s, r) := s.pool.ready[SlotNow(c, s, r)] - 1]
                else t.pool.ready == s.pool.ready)
            && (!step.Hand? ==> t.pool.offers == s.pool.offers && t.pool.readers[r] == s.pool.readers[r].(phase := t.pool.readers[r].phase))
  {
  }

  lemma ShapeReader(c: Plan, s: State, step: Step)
    requires Shape(c, s) && ReaderEnabled(c, s, step)
    ensures Shape(c, DoReader(c, s, step))
  {
    ReaderFrame(c, s, step);
    hide DoReader, ReaderEnabled, Plan.Readers, Plan.Slots, Plan.SlotOf;
  }

  lemma HandStride(c: Plan, reader: Reader, m: Main, r: nat, ok: bool)
    requires r < c.Readers() && InStride(c, reader, None, m, r) && reader.phase != Gone
    ensures InStride(c, NextOf(c, reader, ok), Some(Offer(c.SlotOf(r, reader.cycle), reader.part, ok)), m, r)
  {
    assert PartOf(c, r, reader.cycle + 1) == PartOf(c, r, reader.cycle) + c.Readers();
    if PartOf(c, r, reader.cycle + 1) < |c.parts| {
      SlotInRange(c, r, reader.cycle + 1);
    }
    hide Plan.Readers, Plan.Slots, Plan.SlotOf, Taken, PartOf;
  }

  lemma StridesReader(c: Plan, s: State, step: Step)
    requires Shape(c, s) && Strides(c, s) && ReaderEnabled(c, s, step)
    ensures Sizes(c, DoReader(c, s, step)) && Strides(c, DoReader(c, s, step))
  {
    ReaderFrame(c, s, step);
    var r := ReaderOf(step);
    assert InStride(c, s.pool.readers[r], s.pool.offers[r], s.main, r);
    if step.Hand? {
      HandStride(c, s.pool.readers[r], s.main, r, s.pool.readers[r].phase.ok);
      hide InStride, Plan.Readers, Plan.Slots, Plan.SlotOf, Shape;
    } else {
      hide DoReader, Plan.Readers, Plan.Slots, Plan.SlotOf, Shape, PartOf, Taken;
    }
  }

  lemma TokensReader(c: Plan, s: State, step: Step, slot: nat)
    requires Shape(c, s) && Strides(c, s) && ReaderEnabled(c, s, step) && slot < c.Slots()
    ensures Sizes(c, DoReader(c, s, step))
    ensures Tokens(c, DoReader(c, s, step), slot) <= Tokens(c, s, slot)
    ensures !step.Quit? ==> Tokens(c, DoReader(c, s, step), slot) == Tokens(c, s, slot)
  {
    ReaderFrame(c, s, step);
    var r := ReaderOf(step);
    assert InStride(c, s.pool.readers[r], s.pool.offers[r], s.main, r);
    SlotInRange(c, r, s.pool.readers[r].cycle);
    SlotsAlternate(c, r, s.pool.readers[r].cycle);
    hide Plan.Readers, Plan.Slots, Plan.SlotOf, Shape, PartOf, Taken;
  }

  lemma FencesReader(c: Plan, s: State, step: Step)
    requires Safe(c, s) && ReaderEnabled(c, s, step)
    ensures Sizes(c, DoReader(c, s, step)) && FencesExact(c, DoReader(c, s, step)) && FencedSlotsHeld(c, DoReader(c, s, step))
  {
    ReaderFrame(c, s, step);
    var t := DoReader(c, s, step);
    hide DoReader, ReaderEnabled, Plan.Readers, Plan.Slots, Plan.SlotOf, Shape, Strides, OneToken, ItemCount, HeldCount;
    assert forall slot: nat :: Outstanding(t, slot) == Outstanding(s, slot);
  }

  lemma SafeReader(c: Plan, s: State, step: Step)
    requires Safe(c, s) && ReaderEnabled(c, s, step)
    ensures Safe(c, DoReader(c, s, step))
  {
    ShapeReader(c, s, step);
    StridesReader(c, s, step);
    FencesReader(c, s, step);
    ReaderFrame(c, s, step);
    var t := DoReader(c, s, step);
    assert step.Quit? ==> s.pool.cancelled;
    hide DoReader, Shape, Strides, FencesExact, FencedSlotsHeld, Tokens;
    forall slot: nat | slot < c.Slots() ensures Tokens(c, t, slot) <= 1 && (!t.pool.cancelled ==> Tokens(c, t, slot) == 1) {
      TokensReader(c, s, step, slot);
    }
  }

  // ---------- The caller ----------

  lemma MainFrame(c: Plan, s: State, step: Step)
    requires MainEnabled(c, s, step) && Shape(c, s)
    ensures var t := DoMain(c, s, step);
            && Sizes(c, t) && t.workers == s.workers && t.pool.readers == s.pool.readers && t.pool.ready == s.pool.ready
            && (!step.Receive? ==> t.pool.offers == s.pool.offers)
            && (!step.EndPartition? ==> t.waiters == s.waiters)
            && (!step.EndPartition? && !step.Receive? ==> t.main.held == s.main.held && t.main.part == s.main.part)
            && (!step.AddFence? && !step.Refuse? && !step.Released? ==> t.fences == s.fences)
            && (!step.SendPlain? && !step.SendFenced? && !step.Released? ==> t.workChan == s.workChan)
            && (s.pool.cancelled ==> t.pool.cancelled)
  {
    hide Plan.Readers, Plan.Slots, ReadersGone;
  }

  lemma ShapeMain(c: Plan, s: State, step: Step)
    requires Shape(c, s) && Strides(c, s) && MainEnabled(c, s, step)
    ensures Shape(c, DoMain(c, s, step))
  {
    MainFrame(c, s, step);
    if step.Receive? {
      var r := Turn(c, s);
      assert InStride(c, s.pool.readers[r], s.pool.offers[r], s.main, r);
    }
    hide Plan.Readers, Plan.Slots, Plan.SlotOf, PartOf, Taken, ReadersGone, ReleaseAll;
  }

  /** The caller receives the partitions in order, from the reader whose turn it is. */
  lemma ReceivesInOrder(c: Plan, s: State)
    requires Shape(c, s) && Strides(c, s) && MainEnabled(c, s, Receive)
    ensures s.pool.offers[Turn(c, s)].value.part == s.main.part
    ensures s.pool.offers[Turn(c, s)].value.slot / SLOTS_PER_READER == Turn(c, s)
  {
    var r := Turn(c, s);
    assert InStride(c, s.pool.readers[r], s.pool.offers[r], s.main, r);
    TurnsPart(c, s.main.part);
    SlotInRange(c, r, s.pool.readers[r].cycle - 1);
    hide Plan.Readers, Plan.Slots, Plan.SlotOf, PartOf;
  }

  lemma ReceivedBy(c: Plan, s: State, step: Step)
    requires MainEnabled(c, s, step) && Shape(c, s)
    ensures var t := DoMain(c, s, step);
            && Received(t.main) == Received(s.main) + One(step.Receive?)
            && (step.Receive? ==> s.main.held.None? && s.pool.offers[Turn(c, s)].Some?
                                  && t.pool.offers == s.pool.offers[Turn(c, s) := None])
  {
    hide Plan.Readers, Plan.Slots, ReadersGone, ReleaseAll;
  }

  lemma StrideOn(c: Plan, reader: Reader, offer: Option<Offer>, m: Main, r: nat, n: Main, received: bool)
    requires r < c.Readers() && InStride(c, reader, offer, m, r) && Received(n) == Received(m) + One(received)
    requires received ==> m.held.None? && (r == m.part % c.Readers() ==> offer.Some?)
    ensures InStride(c, reader, if received && r == m.part % c.Readers() then None else offer, n, r)
  {
    TakenNext(c, m.part, r);
    hide Plan.Readers, Plan.Slots, Plan.SlotOf, PartOf, Taken;
  }

  lemma StridesMain(c: Plan, s: State, step: Step)
    requires Shape(c, s) && Strides(c, s) && MainEnabled(c, s, step)
    ensures Sizes(c, DoMain(c, s, step)) && Strides(c, DoMain(c, s, step))
  {
    MainFrame(c, s, step);
    ReceivedBy(c, s, step);
    var t := DoMain(c, s, step);
    hide InStride, Shape, Plan.Readers, Plan.Slots, DoMain, MainEnabled;
    forall r: nat | r < c.Readers() ensures InStride(c, t.pool.readers[r], t.pool.offers[r], t.main, r) {
      StrideOn(c, s.pool.readers[r], s.pool.offers[r], s.main, r, t.main, step.Receive?);
    }
  }

  lemma TokensMain(c: Plan, s: State, step: Step, slot: nat)
    requires Shape(c, s) && Strides(c, s) && MainEnabled(c, s, step) && slot < c.Slots()
    ensures Sizes(c, DoMain(c, s, step)) && Tokens(c, DoMain(c, s, step), slot) == Tokens(c, s, slot)
  {
    MainFrame(c, s, step);
    var t := DoMain(c, s, step);
    if step.Receive? {
      ReceivesInOrder(c, s);
      hide Plan.Readers, Plan.Slots, Plan.SlotOf, Has, ReadersGone;
    } else if step.EndPartition? {
      hide Plan.Readers, Plan.Slots, Plan.SlotOf, Has, Offers, ReadersGone;
    } else {
      hide Plan.Readers, Plan.Slots, Plan.SlotOf, Has, Offers, DoMain, MainEnabled, ReadersGone;
    }
  }

  // Releasing what is queued lowers each fence by its items.
  lemma {:induction false} ReleaseAllAt(fences: seq<nat>, items: seq<Item>, slot: nat)
    requires slot < |fences| && ItemCount(items, slot) <= fences[slot]
    ensures ReleaseAll(fences, items)[slot] == fences[slot] - ItemCount(items, slot)
    decreases |items|
  {
    if |items| > 0 {
      var rest := match items[0]
                  case Plain => fences
                  case Fenced(k) => if k < |fences| then Sub(fences, k) else fences;
      ReleaseAllAt(rest, items[1..], slot);
    }
  }

  lemma FencesMain(c: Plan, s: State, step: Step, slot: nat)
    requires Shape(c, s) && FencesExact(c, s) && MainEnabled(c, s, step) && slot < c.Slots()
    ensures Sizes(c, DoMain(c, s, step)) && DoMain(c, s, step).fences[slot] == Outstanding(DoMain(c, s, step), slot)
  {
    MainFrame(c, s, step);
    var t := DoMain(c, s, step);
    assert s.fences[slot] == Outstanding(s, slot);
    if step.Released? {
      ReleaseAllAt(s.fences, s.workChan, slot);
      hide HeldCount, ReleaseAll, Plan.Readers, Plan.Slots;
    } else if step.SendPlain? {
      ItemAppend(s.workChan, Plain, slot);
      hide HeldCount, ItemCount, Plan.Readers, Plan.Slots;
    } else if step.SendFenced? {
      ItemAppend(s.workChan, Fenced(s.main.held.value), slot);
      hide HeldCount, ItemCount, Plan.Readers, Plan.Slots;
    } else {
      hide HeldCount, ItemCount, Plan.Readers, Plan.Slots, ReadersGone;
    }
  }

  lemma HeldMain(c: Plan, s: State, step: Step, slot: nat)
    requires Safe(c, s) && MainEnabled(c, s, step) && slot < c.Slots()
    ensures Sizes(c, DoMain(c, s, step))
    ensures var t := DoMain(c, s, step); t.fences[slot] > 0 ==> t.main.held == Some(slot) || slot in t.waiters
  {
    MainFrame(c, s, step);
    var t := DoMain(c, s, step);
    assert s.fences[slot] > 0 ==> s.main.held == Some(slot) || slot in s.waiters;
    if step.Released? {
      assert s.fences[slot] == Outstanding(s, slot);
      ReleaseAllAt(s.fences, s.workChan, slot);
    }
    hide Strides, OneToken, FencesExact, ItemCount, HeldCount, Plan.Readers, Plan.Slots, ReadersGone, ReleaseAll;
  }

  lemma SafeMain(c: Plan, s: State, step: Step)
    requires Safe(c, s) && MainEnabled(c, s, step)
    ensures Safe(c, DoMain(c, s, step))
  {
    ShapeMain(c, s, step);
    StridesMain(c, s, step);
    MainFrame(c, s, step);
    var t := DoMain(c, s, step);
    hide DoMain, MainEnabled, Shape, Strides, Tokens, Outstanding;
    forall slot: nat | slot < c.Slots()
      ensures Tokens(c, t, slot) <= 1 && (!t.pool.cancelled ==> Tokens(c, t, slot) == 1)
      ensures t.fences[slot] == Outstanding(t, slot)
      ensures t.fences[slot] > 0 ==> t.main.held == Some(slot) || slot in t.waiters
    {
      TokensMain(c, s, step, slot);
      FencesMain(c, s, step, slot);
      HeldMain(c, s, step, slot);
    }
  }

  // ---------- Workers ----------

  function WorkerOf(step: Step): int {
    match step
    case Take(i) => i
    case Release(i) => i
    case GiveUp(i) => i
    case Finish(i) => i
    case Fail(i) => i
    case Exit(i) => i
    case Leave(i) => i
    case _ => -1
  }

  lemma WorkerFrame(c: Plan, s: State, step: Step)
    requires WorkerEnabled(c, s, step)
    ensures var t, i := DoWorker(c, s, step), WorkerOf(step);
            && 0 <= i < |s.workers| == |t.workers|
            && t == s.(workers := t.workers, workChan := t.workChan, fences := t.fences, flags := t.flags)
            && t.workers == s.workers[i := t.workers[i]] && |t.fences| == |s.fences|
            && (step.Take? ==> |s.workChan| > 0 && s.workers[i] == Idle && t.workers[i] == Holding(s.workChan[0])
                               && t.workChan == s.workChan[1..] && t.fences == s.fences)
            && (!step.Take? ==> t.workChan == s.workChan && !t.workers[i].Holding? && t.fences == Fences(s, s.workers[i]))
            && !s.workers[i].Left?
  {
  }

  lemma FencesWorker(c: Plan, s: State, step: Step, slot: nat)
    requires Shape(c, s) && FencesExact(c, s) && WorkerEnabled(c, s, step) && slot < c.Slots()
    ensures var t := DoWorker(c, s, step);
            Sizes(c, t) && t.fences[slot] == Outstanding(t, slot) && t.fences[slot] <= s.fences[slot]
  {
    WorkerFrame(c, s, step);
    var t, i := DoWorker(c, s, step), WorkerOf(step);
    assert s.fences[slot] == Outstanding(s, slot);
    HeldSet(s.workers, i, t.workers[i], slot);
    hide DoWorker, WorkerEnabled, HeldCount, Plan.Readers, Plan.Slots;
    if Holds(s.workers[i], slot) {
      HolderExists(s.workers, slot);
    }
  }

  lemma SafeWorker(c: Plan, s: State, step: Step)
    requires Safe(c, s) && WorkerEnabled(c, s, step)
    ensures Safe(c, DoWorker(c, s, step))
  {
    WorkerFrame(c, s, step);
    var t := DoWorker(c, s, step);
    hide DoWorker, WorkerEnabled, Outstanding, Has, Offers, InStride, Plan.Readers, Plan.Slots;
    forall slot: nat | slot < c.Slots()
      ensures t.fences[slot] == Outstanding(t, slot)
      ensures Tokens(c, t, slot) == Tokens(c, s, slot)
      ensures t.fences[slot] > 0 ==> t.main.held == Some(slot) || slot in t.waiters
    {
      FencesWorker(c, s, step, slot);
    }
  }

  // ---------- Waiters and the outside ----------

  lemma OtherFrame(c: Plan, s: State, step: Step)
    requires OtherEnabled(c, s, step) && Sizes(c, s)
    ensures var t := DoOther(c, s, step);
            && Sizes(c, t) && t.fences == s.fences && t.main == s.main && t.workChan == s.workChan && t.workers == s.workers
            && t.pool == s.pool.(ready := t.pool.ready) && t.waiters <= s.waiters
            && (forall slot: nat :: slot < c.Slots() ==> t.pool.ready[slot] + t.waiters[slot] == s.pool.ready[slot] + s.waiters[slot])
            && (forall slot: nat :: s.waiters[slot] != t.waiters[slot] ==> slot < c.Slots() && s.fences[slot] == 0)
  {
    hide Plan.Readers, Plan.Slots;
  }

  lemma OtherSlot(c: Plan, s: State, step: Step, slot: nat)
    requires Safe(c, s) && OtherEnabled(c, s, step) && slot < c.Slots()
    ensures var t := DoOther(c, s, step);
            && Sizes(c, s) && Sizes(c, t) && t.fences[slot] == Outstanding(t, slot)
            && Tokens(c, t, slot) == Tokens(c, s, slot)
            && (t.fences[slot] > 0 ==> t.main.held == Some(slot) || slot in t.waiters)
  {
    OtherFrame(c, s, step);
    hide DoOther, OtherEnabled, HeldCount, ItemCount, Has, Offers, Strides, OneToken, Plan.Readers, Plan.Slots, ReadersGone;
    assert s.fences[slot] == Outstanding(s, slot);
  }

  lemma ShapeOther(c: Plan, s: State, step: Step)
    requires Shape(c, s) && Strides(c, s) && OtherEnabled(c, s, step)
    ensures Shape(c, DoOther(c, s, step)) && Strides(c, DoOther(c, s, step))
  {
    OtherFrame(c, s, step);
    hide DoOther, OtherEnabled, InStride, Plan.Readers, Plan.Slots;
  }

  lemma SafeOther(c: Plan, s: State, step: Step)
    requires Safe(c, s) && OtherEnabled(c, s, step)
    ensures Safe(c, DoOther(c, s, step))
  {
    OtherFrame(c, s, step);
    ShapeOther(c, s, step);
    var t := DoOther(c, s, step);
    hide DoOther, OtherEnabled, Shape, Strides, Tokens, Outstanding, Plan.Slots, Plan.Readers;
    forall slot: nat | slot < c.Slots()
      ensures t.fences[slot] == Outstanding(t, slot)
      ensures Tokens(c, t, slot) == Tokens(c, s, slot)
      ensures t.fences[slot] > 0 ==> t.main.held == Some(slot) || slot in t.waiters
    {
      OtherSlot(c, s, step, slot);
    }
  }

  /** Every step keeps one token a slot, exact fences and the order of the partitions. */
  lemma SafeKeeps(c: Plan, s: State, step: Step)
    requires Safe(c, s) && Enabled(c, s, step)
    ensures Safe(c, Do(c, s, step))
  {
    hide Safe, ReaderEnabled, MainEnabled, WorkerEnabled, OtherEnabled, DoReader, DoMain, DoWorker, DoOther;
    if ReaderEnabled(c, s, step) {
      SafeReader(c, s, step);
    } else if MainEnabled(c, s, step) {
      SafeMain(c, s, step);
    } else if WorkerEnabled(c, s, step) {
      SafeWorker(c, s, step);
    } else {
      SafeOther(c, s, step);
    }
  }

  /** While a reader fills a slot, no work item that has not been released refers to it. */
  lemma FillingIsExclusive(c: Plan, s: State, r: nat)
    requires Safe(c, s) && r < c.Readers() && (s.pool.readers[r].phase == Reading || s.pool.readers[r].phase.Offering?)
    ensures var slot := SlotNow(c, s, r);
            && slot < c.Slots() && s.fences[slot] == 0
            && Fenced(slot) !in s.workChan && (forall i :: 0 <= i < |s.workers| ==> s.workers[i] != Holding(Fenced(slot)))
  {
    var slot := SlotNow(c, s, r);
    assert InStride(c, s.pool.readers[r], s.pool.offers[r], s.main, r);
    SlotInRange(c, r, s.pool.readers[r].cycle);
    assert Tokens(c, s, slot) <= 1;
    assert s.fences[slot] == Outstanding(s, slot);
    ItemExists(s.workChan, slot);
    HolderExists(s.workers, slot);
    hide Plan.Readers, Plan.Slots, Plan.SlotOf, PartOf, Taken, HeldCount, ItemCount;
    assert Has(c, s.pool.readers[r], r, slot);
    assert s.main.held != Some(slot) && slot !in s.waiters;
    forall i | 0 <= i < |s.workers| ensures s.workers[i] != Holding(Fenced(slot)) {
      assert !Holds(s.workers[i], slot);
    }
  }
}
