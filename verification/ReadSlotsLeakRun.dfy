/** The other direction: a run of any such plan that leaves a goroutine waiting, and with it the
    exact condition. */
module ReadSlotsLeakRun {
  import opened Basics
  import opened ReadSlots
  import opened ReadSlotsSafety
  import opened ReadSlotsRuns
  import opened ReadSlotsDelivery
  import opened ReadSlotsLeak
  import Encoding

  const QUIET := Flags(false, false, false, false, false)

  // A leaky plan and its last block with entries.
  ghost predicate Chosen(c: Plan, last: nat) {
    c.Valid() && LastFull(c, last) && LeakAt(c, last)
  }

  ghost function LastPart(c: Plan, last: nat): nat
    requires last < |AllBlocks(c)|
  {
    AllBlocks(c)[last].part
  }

  // ---------- The states the run passes through ----------

  // After n blocks have been sent: the first ones are finished, the next c.workers ones each
  // keep a worker busy, and from the last one with entries on they stay queued.
  ghost function BusyAt(c: Plan, last: nat, n: nat): (b: nat)
    requires c.workers <= last
    ensures b <= c.workers
  {
    if n <= last - c.workers then 0 else if n <= last then n - (last - c.workers) else c.workers
  }

  ghost function WorkersAt(c: Plan, busy: nat): (r: seq<Worker>)
    ensures |r| == c.workers
  {
    seq(c.workers, i => if i < busy then Busy else Idle)
  }

  ghost function QueueAt(c: Plan, last: nat, n: nat): seq<Item>
    requires n <= |AllBlocks(c)|
  {
    if n <= last then [] else Map(ItemFn(c), AllBlocks(c)[last..n])
  }

  ghost function FencesAt(c: Plan, last: nat, n: nat): (r: seq<nat>)
    requires last < |AllBlocks(c)|
    ensures |r| == c.Slots()
  {
    seq(c.Slots(), slot => if n > last && slot == PartSlot(c, LastPart(c, last)) then 1 else 0)
  }

  // The readers when p partitions have been handed over and received.
  ghost function ReadersAt(c: Plan, p: nat): (rs: seq<Reader>)
    ensures |rs| == c.Readers()
  {
    seq(c.Readers(), r requires 0 <= r < c.Readers() => ReaderAt(c, p, r))
  }

  ghost function ReaderAt(c: Plan, p: nat, r: nat): Reader {
    var cycle := Taken(c, p, r);
    Reader(PartOf(c, r, cycle), cycle, if PartOf(c, r, cycle) < |c.parts| then Waiting else Gone)
  }

  ghost function ReadyBut(c: Plan, away: set<nat>): (r: seq<nat>)
    ensures |r| == c.Slots()
  {
    seq(c.Slots(), slot => if slot in away then 0 else 1)
  }

  // Once its partition is over, the last block's slot is waited for.
  ghost function AwayAt(c: Plan, last: nat, p: nat): set<nat>
    requires last < |AllBlocks(c)|
  {
    if p > LastPart(c, last) then {PartSlot(c, LastPart(c, last))} else {}
  }

  ghost function PoolAt(c: Plan, p: nat, away: set<nat>): Pool {
    Pool(ReadersAt(c, p), seq(c.Readers(), _ => None), ReadyBut(c, away), false)
  }

  ghost function StateAt(c: Plan, last: nat, pool: Pool, p: nat, main: Main, n: nat): State
    requires last < |AllBlocks(c)| && c.workers <= last && n <= |AllBlocks(c)|
  {
    State(pool, FencesAt(c, last, n), multiset(AwayAt(c, last, p)), main, QueueAt(c, last, n), WorkersAt(c, BusyAt(c, last, n)), QUIET)
  }

  ghost function Sent(c: Plan, p: nat): nat
    requires p <= |c.parts|
  {
    |BeforePart(c, p)|
  }

  lemma {:induction false} SentMonotone(c: Plan, p: nat, q: nat)
    requires p <= q <= |c.parts|
    ensures Sent(c, p) <= Sent(c, q) && BeforePart(c, p) == BeforePart(c, q)[..Sent(c, p)]
    decreases q
  {
    if p < q {
      SentMonotone(c, p, q - 1);
    }
  }

  // The caller waits for partition p.
  ghost function Awaiting(c: Plan, last: nat, p: nat): State
    requires Chosen(c, last) && p <= |c.parts|
  {
    SentMonotone(c, p, |c.parts|);
    StateAt(c, last, PoolAt(c, p, AwayAt(c, last, p)), p, Main(Receiving, p, None, None), Sent(c, p))
  }

  // The caller is at block k of partition p.
  ghost function AtBlockOf(c: Plan, last: nat, p: nat, k: nat): State
    requires Chosen(c, last) && p < |c.parts| && k <= |c.parts[p]|
  {
    SentMonotone(c, p + 1, |c.parts|);
    StateAt(c, last, PoolAt(c, p + 1, AwayAt(c, last, p) + {PartSlot(c, p)}), p,
            Main(Dispatching(k, false), p, Some(PartSlot(c, p)), None), Sent(c, p) + k)
  }

  // ---------- Steps ----------

  ghost predicate Reachable(c: Plan, s: State) { exists steps :: Reaches(c, steps, s) }

  lemma Goes(c: Plan, s: State, step: Step, t: State)
    requires Reachable(c, s) && Enabled(c, s, step) && t == Do(c, s, step)
    ensures Reachable(c, t)
  {
    hide Enabled, Do;
    var steps :| Reaches(c, steps, s);
    assert (steps + [step])[..|steps|] == steps;
    assert Reaches(c, steps + [step], t);
  }

  lemma ReaderGoes(c: Plan, s: State, step: Step, t: State)
    requires Reachable(c, s) && ReaderEnabled(c, s, step) && t == DoReader(c, s, step)
    ensures Reachable(c, t)
  {
    hide ReaderEnabled, DoReader, Reachable;
    Goes(c, s, step, t);
  }

  lemma MainGoes(c: Plan, s: State, step: Step, t: State)
    requires Reachable(c, s) && MainEnabled(c, s, step) && t == DoMain(c, s, step)
    ensures Reachable(c, t)
  {
    assert !ReaderEnabled(c, s, step);
    hide ReaderEnabled, MainEnabled, DoMain, Reachable;
    Goes(c, s, step, t);
  }

  lemma WorkerGoes(c: Plan, s: State, step: Step, t: State)
    requires Reachable(c, s) && WorkerEnabled(c, s, step) && t == DoWorker(c, s, step)
    ensures Reachable(c, t)
  {
    assert !ReaderEnabled(c, s, step) && !MainEnabled(c, s, step);
    hide ReaderEnabled, MainEnabled, WorkerEnabled, DoWorker, Reachable;
    Goes(c, s, step, t);
  }

  lemma OtherGoes(c: Plan, s: State, step: Step, t: State)
    requires Reachable(c, s) && OtherEnabled(c, s, step) && t == DoOther(c, s, step)
    ensures Reachable(c, t)
  {
    assert !ReaderEnabled(c, s, step) && !MainEnabled(c, s, step) && !WorkerEnabled(c, s, step);
    hide ReaderEnabled, MainEnabled, WorkerEnabled, OtherEnabled, DoOther, Reachable;
    Goes(c, s, step, t);
  }

  // ---------- A partition is handed over and received ----------

  // The reader whose turn it is waits for partition p, and afterwards for the next in its stride.
  lemma TurnReader(c: Plan, p: nat)
    requires p < |c.parts|
    ensures var r := p % c.Readers();
            && r < c.Readers() && ReaderAt(c, p, r) == Reader(p, p / c.Readers(), Waiting)
            && ReaderAt(c, p + 1, r) == NextOf(c, Reader(p, p / c.Readers(), Offering(true)), true)
  {
    var r := p % c.Readers();
    TurnsPart(c, p);
    TakenNext(c, p, r);
    assert Taken(c, p, r) == p / c.Readers();
    assert PartOf(c, r, p / c.Readers() + 1) == PartOf(c, r, p / c.Readers()) + c.Readers();
    hide Plan.Readers, Taken, PartOf;
  }

  lemma OtherReader(c: Plan, p: nat, r: nat)
    requires r < c.Readers() && r != p % c.Readers()
    ensures ReaderAt(c, p + 1, r) == ReaderAt(c, p, r)
  {
    TakenNext(c, p, r);
    hide Plan.Readers, Taken, PartOf;
  }

  lemma ReadersNext(c: Plan, p: nat)
    requires p < |c.parts|
    ensures p % c.Readers() < c.Readers()
    ensures ReadersAt(c, p)[p % c.Readers() := ReaderAt(c, p + 1, p % c.Readers())] == ReadersAt(c, p + 1)
  {
    var r := p % c.Readers();
    var now, next := ReadersAt(c, p)[r := ReaderAt(c, p + 1, r)], ReadersAt(c, p + 1);
    forall i: nat | i < c.Readers() ensures now[i] == next[i] {
      if i != r { OtherReader(c, p, i); }
    }
    hide ReaderAt, Plan.Readers;
  }

  // Two partitions with the same slot are two turns of a reader apart, or more.
  lemma SlotAgain(c: Plan, p: nat, q: nat)
    requires p < q && PartSlot(c, p) == PartSlot(c, q) && q < |c.parts|
    ensures q >= p + SLOTS_PER_READER * c.Readers()
  {
    SlotInRangeOf(c, p);
    SlotInRangeOf(c, q);
    hide Plan.Readers, Plan.Slots;
    Apart(p, q, c.Readers(), p / c.Readers(), q / c.Readers());
  }

  lemma Apart(p: nat, q: nat, R: nat, a: nat, b: nat)
    requires R > 0 && p < q && p % R == q % R && a == p / R && b == q / R && a % 2 == b % 2
    ensures q >= p + 2 * R
  {
    assert p == a * R + p % R && q == b * R + q % R;
    Encoding.MulMonotone(b, a, R);
    Encoding.MulMonotone(a + 2, b, R);
  }

  lemma SlotFree(c: Plan, last: nat, p: nat)
    requires Chosen(c, last) && p < |c.parts|
    ensures PartSlot(c, p) < c.Slots() && PartSlot(c, p) !in AwayAt(c, last, p)
  {
    PartSlotInRange(c, p);
    if p > LastPart(c, last) && PartSlot(c, LastPart(c, last)) == PartSlot(c, p) {
      SlotAgain(c, LastPart(c, last), p);
    }
    hide LastFull, Plan.Slots, Plan.Readers, PartSlot, AllBlocks;
  }

  lemma ReadyWithout(c: Plan, away: set<nat>, slot: nat)
    requires slot < c.Slots() && slot !in away
    ensures ReadyBut(c, away)[slot] == 1 && ReadyBut(c, away)[slot := 0] == ReadyBut(c, away + {slot})
    ensures ReadyBut(c, away + {slot})[slot] == 0 && ReadyBut(c, away + {slot})[slot := 1] == ReadyBut(c, away)
  {
    hide Plan.Slots;
  }

  // The reader claims its slot, reads and hands over.
  lemma HandOver(c: Plan, s: State, p: nat, away: set<nat>)
    requires Reachable(c, s) && p < |c.parts| && s.pool == PoolAt(c, p, away)
    requires PartSlot(c, p) < c.Slots() && PartSlot(c, p) !in away
    ensures p % c.Readers() < c.Readers()
    ensures Reachable(c, s.(pool := Pool(ReadersAt(c, p + 1), seq(c.Readers(), _ => None)[p % c.Readers() := Some(Offer(PartSlot(c, p), p, true))],
                                         ReadyBut(c, away + {PartSlot(c, p)}), false)))
  {
    hide *;
    var r, slot, turn := p % c.Readers(), PartSlot(c, p), Reader(p, p / c.Readers(), Waiting);
    TurnReader(c, p);
    ReadersNext(c, p);
    ReadyWithout(c, away, slot);
    PoolIs(c, p, away);
    var readers, none, ready := ReadersAt(c, p), seq(c.Readers(), _ => None), ReadyBut(c, away + {slot});
    TurnIs(c, p);
    var s1 := s.(pool := Pool(readers[r := turn.(phase := Reading)], none, ready, false));
    var s2 := s.(pool := Pool(readers[r := turn.(phase := Offering(true))], none, ready, false));
    var s3 := s.(pool := Pool(ReadersAt(c, p + 1), none[r := Some(Offer(slot, p, true))], ready, false));
    SlotOfTurn(c, s, r, p);
    ClaimStep(c, s, s1, r, slot);
    ReaderGoes(c, s, Claim(r), s1);
    ReadStep(c, s1, s2, r);
    ReaderGoes(c, s1, Read(r, true), s2);
    SlotOfTurn(c, s2, r, p);
    HandStep(c, s2, s3, r, slot);
    ReaderGoes(c, s2, Hand(r), s3);
  }

  lemma TurnIs(c: Plan, p: nat)
    requires p < |c.parts|
    ensures p % c.Readers() < |ReadersAt(c, p)| && ReadersAt(c, p)[p % c.Readers()] == Reader(p, p / c.Readers(), Waiting)
  {
    TurnReader(c, p);
    hide ReaderAt, Plan.Readers;
  }

  lemma SlotOfTurn(c: Plan, s: State, r: nat, p: nat)
    requires r == p % c.Readers() && r < |s.pool.readers| && s.pool.readers[r].cycle == p / c.Readers()
    ensures SlotNow(c, s, r) == PartSlot(c, p)
  {
    hide Plan.SlotOf, Plan.Readers;
  }

  lemma ClaimStep(c: Plan, s: State, t: State, r: nat, slot: nat)
    requires r < |s.pool.readers| && r < |s.pool.offers| && s.pool.readers[r].phase == Waiting && SlotNow(c, s, r) == slot < |s.pool.ready|
    requires s.pool.ready[slot] == 1
    requires t == s.(pool := s.pool.(readers := s.pool.readers[r := s.pool.readers[r].(phase := Reading)], ready := s.pool.ready[slot := 0]))
    ensures ReaderEnabled(c, s, Claim(r)) && t == DoReader(c, s, Claim(r))
  {
  }

  lemma ReadStep(c: Plan, s: State, t: State, r: nat)
    requires r < |s.pool.readers| && r < |s.pool.offers| && s.pool.readers[r].phase == Reading
    requires t == s.(pool := s.pool.(readers := s.pool.readers[r := s.pool.readers[r].(phase := Offering(true))]))
    ensures ReaderEnabled(c, s, Read(r, true)) && t == DoReader(c, s, Read(r, true))
  {
  }

  lemma HandStep(c: Plan, s: State, t: State, r: nat, slot: nat)
    requires r < |s.pool.readers| && r < |s.pool.offers| && s.pool.readers[r].phase == Offering(true) && s.pool.offers[r].None?
    requires SlotNow(c, s, r) == slot
    requires t == s.(pool := s.pool.(readers := s.pool.readers[r := NextOf(c, s.pool.readers[r], true)],
                                     offers := s.pool.offers[r := Some(Offer(slot, s.pool.readers[r].part, true))]))
    ensures ReaderEnabled(c, s, Hand(r)) && t == DoReader(c, s, Hand(r))
  {
  }

  lemma NothingSentOf(c: Plan, last: nat, p: nat)
    requires Chosen(c, last) && p < |c.parts|
    ensures Sent(c, p) <= Sent(c, p + 1) <= |AllBlocks(c)| && Sent(c, p + 1) == Sent(c, p) + |c.parts[p]|
  {
    SentMonotone(c, p, p + 1);
    SentMonotone(c, p + 1, |c.parts|);
  }

  lemma ReceiveRun(c: Plan, last: nat, p: nat)
    requires Chosen(c, last) && p < |c.parts| && Reachable(c, Awaiting(c, last, p))
    ensures Reachable(c, AtBlockOf(c, last, p, 0))
  {
    var s, t := Awaiting(c, last, p), AtBlockOf(c, last, p, 0);
    var r, slot, away := p % c.Readers(), PartSlot(c, p), AwayAt(c, last, p);
    SlotFree(c, last, p);
    NothingSentOf(c, last, p);
    HandOver(c, s, p, away);
    var none := seq(c.Readers(), _ => None);
    var u := s.(pool := Pool(ReadersAt(c, p + 1), none[r := Some(Offer(slot, p, true))], ReadyBut(c, away + {slot}), false));
    assert none[r := Some(Offer(slot, p, true))][r := None] == none;
    hide Plan.Readers, Plan.Slots, ReadersAt, ReadyBut, ReaderAt, Reachable, AwayAt, PartSlot, FencesAt, QueueAt, WorkersAt, BusyAt, Chosen, Sent;
    MainGoes(c, u, Receive, t);
  }

  // ---------- A block is sent, and taken if there are enough before the last ----------

  lemma BlockAt(c: Plan, last: nat, p: nat, k: nat)
    requires Chosen(c, last) && p < |c.parts| && k < |c.parts[p]|
    ensures Sent(c, p) + k < |AllBlocks(c)| && AllBlocks(c)[Sent(c, p) + k] == Dispatch(p, c.parts[p][k])
  {
    SentMonotone(c, p + 1, |c.parts|);
    assert AllBlocks(c)[Sent(c, p) + k] == BeforePart(c, p + 1)[Sent(c, p) + k];
  }

  lemma QueueBefore(c: Plan, last: nat, n: nat)
    requires Chosen(c, last) && n < last
    ensures n + 1 < |AllBlocks(c)| && QueueAt(c, last, n) == [] == QueueAt(c, last, n + 1)
    ensures FencesAt(c, last, n) == FencesAt(c, last, n + 1) == seq(c.Slots(), _ => 0)
  {
    hide Plan.Slots;
  }

  // From the last block with entries on, what is sent stays queued.
  lemma QueueAfter(c: Plan, last: nat, n: nat)
    requires Chosen(c, last) && last <= n < |AllBlocks(c)|
    ensures QueueAt(c, last, n + 1) == QueueAt(c, last, n) + [ItemFn(c)(AllBlocks(c)[n])]
    ensures |QueueAt(c, last, n)| < c.Capacity() && BusyAt(c, last, n) == BusyAt(c, last, n + 1) == c.workers
    ensures AllBlocks(c)[n].full <==> n == last
  {
    assert AllBlocks(c)[last..n + 1] == AllBlocks(c)[last..n] + [AllBlocks(c)[n]];
    hide ItemFn, AllBlocks;
  }

  lemma FencesUp(c: Plan, last: nat)
    requires Chosen(c, last) && PartSlot(c, LastPart(c, last)) < c.Slots()
    ensures FencesAt(c, last, last + 1) == FencesAt(c, last, last)[PartSlot(c, LastPart(c, last)) := 1]
    ensures FencesAt(c, last, last) == seq(c.Slots(), _ => 0)
  {
    hide Plan.Slots, PartSlot, AllBlocks;
  }

  lemma FencesStay(c: Plan, last: nat, n: nat)
    requires Chosen(c, last) && n > last
    ensures FencesAt(c, last, n) == FencesAt(c, last, n + 1)
  {
    hide Plan.Slots, PartSlot, AllBlocks;
  }

  // The caller sends a block.
  ghost function AfterSend(s: State, item: Item, fences: seq<nat>): State
    requires s.main.phase.Dispatching?
  {
    s.(workChan := s.workChan + [item], fences := fences, main := s.main.(phase := Dispatching(s.main.phase.k + 1, false)))
  }

  lemma SendPlainRun(c: Plan, s: State, fences: seq<nat>)
    requires Reachable(c, s) && AtBlock(c, s, false, false) && |s.workChan| < c.Capacity() && fences == s.fences
    ensures Reachable(c, AfterSend(s, Plain, fences))
  {
    var t := AfterSend(s, Plain, fences);
    assert MainEnabled(c, s, SendPlain) && t == DoMain(c, s, SendPlain);
    hide Reachable, MainEnabled, DoMain;
    MainGoes(c, s, SendPlain, t);
  }

  lemma SendFencedRun(c: Plan, s: State, fences: seq<nat>)
    requires Reachable(c, s) && AtBlock(c, s, false, true) && |s.workChan| < c.Capacity()
    requires fences == Add(s.fences, s.main.held.value)
    ensures Reachable(c, AfterSend(s, Fenced(s.main.held.value), fences))
  {
    var u := s.(fences := fences, main := s.main.(phase := Dispatching(s.main.phase.k, true)));
    var t := AfterSend(s, Fenced(s.main.held.value), fences);
    assert MainEnabled(c, s, AddFence) && u == DoMain(c, s, AddFence);
    assert MainEnabled(c, u, SendFenced) && t == DoMain(c, u, SendFenced);
    hide Reachable, MainEnabled, DoMain;
    MainGoes(c, s, AddFence, u);
    MainGoes(c, u, SendFenced, t);
  }

  // An idle worker takes the only item and releases its fence.
  lemma TakeRun(c: Plan, s: State, i: nat, item: Item, fences: seq<nat>)
    requires Reachable(c, s) && i < |s.workers| && s.workers[i] == Idle && s.workChan == [item]
    requires fences == if item.Fenced? && item.slot < |s.fences| then Sub(s.fences, item.slot) else s.fences
    ensures Reachable(c, s.(workChan := [], workers := s.workers[i := Busy], fences := fences))
  {
    var u := s.(workChan := [], workers := s.workers[i := Holding(item)]);
    var t := s.(workChan := [], workers := s.workers[i := Busy], fences := fences);
    assert WorkerEnabled(c, s, Take(i)) && u == DoWorker(c, s, Take(i));
    assert s.workers[i := Holding(item)][i := Busy] == s.workers[i := Busy];
    assert WorkerEnabled(c, u, Release(i)) && t == DoWorker(c, u, Release(i));
    hide Reachable, WorkerEnabled, DoWorker;
    WorkerGoes(c, s, Take(i), u);
    WorkerGoes(c, u, Release(i), t);
  }

  lemma FinishRun(c: Plan, s: State, i: nat)
    requires Reachable(c, s) && i < |s.workers| && s.workers[i] == Busy
    ensures Reachable(c, s.(workers := s.workers[i := Idle]))
  {
    var t := s.(workers := s.workers[i := Idle]);
    assert WorkerEnabled(c, s, Finish(i)) && t == DoWorker(c, s, Finish(i));
    hide Reachable, WorkerEnabled, DoWorker;
    WorkerGoes(c, s, Finish(i), t);
  }

  // Sends block k of the partition, wherever the count stands.
  lemma SendRun(c: Plan, s: State, p: nat, k: nat, fences: seq<nat>)
    requires Reachable(c, s) && p < |c.parts| && k < |c.parts[p]| && PartSlot(c, p) < |s.fences|
    requires s.main == Main(Dispatching(k, false), p, Some(PartSlot(c, p)), None) && |s.workChan| < c.Capacity()
    requires fences == if c.parts[p][k] then Add(s.fences, PartSlot(c, p)) else s.fences
    ensures Reachable(c, AfterSend(s, ItemFn(c)(Dispatch(p, c.parts[p][k])), fences))
  {
    hide Reachable, Plan.Capacity, PartSlot;
    if c.parts[p][k] {
      SendFencedRun(c, s, fences);
    } else {
      SendPlainRun(c, s, fences);
    }
  }

  lemma BusyMore(c: Plan, busy: nat)
    requires busy < c.workers
    ensures WorkersAt(c, busy)[busy] == Idle && WorkersAt(c, busy)[busy := Busy] == WorkersAt(c, busy + 1)
  {
  }

  lemma BusyOnce(c: Plan)
    requires c.workers > 0
    ensures WorkersAt(c, 0)[0] == Idle && WorkersAt(c, 0)[0 := Busy][0] == Busy && WorkersAt(c, 0)[0 := Busy][0 := Idle] == WorkersAt(c, 0)
  {
  }

  lemma DownAgain(fences: seq<nat>, slot: nat)
    requires slot < |fences|
    ensures |Add(fences, slot)| == |fences| && Sub(Add(fences, slot), slot) == fences
  {
  }

  lemma AtIs(c: Plan, last: nat, p: nat, k: nat)
    requires Chosen(c, last) && p < |c.parts| && k <= |c.parts[p]|
    ensures last < |AllBlocks(c)| && c.workers <= last && Sent(c, p) + k <= |AllBlocks(c)|
    ensures AtBlockOf(c, last, p, k) ==
            State(PoolAt(c, p + 1, AwayAt(c, last, p) + {PartSlot(c, p)}), FencesAt(c, last, Sent(c, p) + k), multiset(AwayAt(c, last, p)),
                  Main(Dispatching(k, false), p, Some(PartSlot(c, p)), None), QueueAt(c, last, Sent(c, p) + k),
                  WorkersAt(c, BusyAt(c, last, Sent(c, p) + k)), QUIET)
  {
    NothingSentOf(c, last, p);
    hide PoolAt, AwayAt, FencesAt, QueueAt, WorkersAt, BusyAt, PartSlot, AllBlocks, Sent;
  }

  lemma AfterSendIs(s: State, item: Item, fences: seq<nat>, k: nat)
    requires s.main.phase == Dispatching(k, false)
    ensures AfterSend(s, item, fences)
         == s.(workChan := s.workChan + [item], fences := fences, main := s.main.(phase := Dispatching(k + 1, false)))
  {
  }

  // Which worker takes block n, and how many are busy afterwards.
  lemma BusyNext(c: Plan, last: nat, n: nat)
    requires Chosen(c, last) && n < last
    ensures 0 < c.workers <= last
    ensures n < last - c.workers ==> BusyAt(c, last, n) == 0 == BusyAt(c, last, n + 1)
    ensures n >= last - c.workers ==> BusyAt(c, last, n) < c.workers && BusyAt(c, last, n + 1) == BusyAt(c, last, n) + 1
  {
    hide AllBlocks;
  }

  lemma ItemOf(c: Plan, d: Dispatch)
    ensures ItemFn(c)(d) == if d.full then Fenced(PartSlot(c, d.part)) else Plain
  {
  }

  lemma ChosenFacts(c: Plan, last: nat)
    requires Chosen(c, last)
    ensures c.Valid() && c.Capacity() > 0 && last < |AllBlocks(c)| && LastPart(c, last) < |c.parts|
  {
    DispatchedPart(c, Main(Receiving, |c.parts|, None, None), last);
    assert Dispatched(c, Main(Receiving, |c.parts|, None, None)) == AllBlocks(c) + [] == AllBlocks(c);
  }

  // A block before the last one with entries: a worker takes it, and finishes it or keeps at it.
  lemma EarlyRun(c: Plan, last: nat, p: nat, k: nat)
    requires Chosen(c, last) && p < |c.parts| && k < |c.parts[p]| && Sent(c, p) + k < last
    requires Reachable(c, AtBlockOf(c, last, p, k))
    ensures Reachable(c, AtBlockOf(c, last, p, k + 1))
  {
    hide *;
    var s, t, n := AtBlockOf(c, last, p, k), AtBlockOf(c, last, p, k + 1), Sent(c, p) + k;
    var d, slot := Dispatch(p, c.parts[p][k]), PartSlot(c, p);
    ChosenFacts(c, last);
    AtIs(c, last, p, k);
    AtIs(c, last, p, k + 1);
    PartSlotInRange(c, p);
    QueueBefore(c, last, n);
    BusyNext(c, last, n);
    ItemOf(c, d);
    var fences := if d.full then Add(s.fences, slot) else s.fences;
    DownAgain(s.fences, slot);
    AfterSendIs(s, ItemFn(c)(d), fences, k);
    SendRun(c, s, p, k, fences);
    var u := AfterSend(s, ItemFn(c)(d), fences);
    assert u.workChan == [ItemFn(c)(d)];
    if n < last - c.workers {
      BusyOnce(c);
      TakeRun(c, u, 0, ItemFn(c)(d), s.fences);
      FinishRun(c, u.(workChan := [], workers := u.workers[0 := Busy], fences := s.fences), 0);
    } else {
      var i := BusyAt(c, last, n);
      BusyMore(c, i);
      TakeRun(c, u, i, ItemFn(c)(d), s.fences);
    }
  }

  // The last block with entries, or a later one: it stays in the queue.
  lemma LateRun(c: Plan, last: nat, p: nat, k: nat)
    requires Chosen(c, last) && p < |c.parts| && k < |c.parts[p]| && Sent(c, p) + k >= last
    requires Reachable(c, AtBlockOf(c, last, p, k))
    ensures Reachable(c, AtBlockOf(c, last, p, k + 1))
  {
    hide *;
    var s, t, n := AtBlockOf(c, last, p, k), AtBlockOf(c, last, p, k + 1), Sent(c, p) + k;
    var d := Dispatch(p, c.parts[p][k]);
    AtIs(c, last, p, k);
    AtIs(c, last, p, k + 1);
    BlockAt(c, last, p, k);
    PartSlotInRange(c, p);
    QueueAfter(c, last, n);
    LateFences(c, last, n, p);
    var fences := if d.full then Add(s.fences, PartSlot(c, p)) else s.fences;
    AfterSendIs(s, ItemFn(c)(d), fences, k);
    SendRun(c, s, p, k, fences);
  }

  lemma LateFences(c: Plan, last: nat, n: nat, p: nat)
    requires Chosen(c, last) && last <= n < |AllBlocks(c)| && AllBlocks(c)[n].part == p && PartSlot(c, p) < c.Slots()
    ensures |FencesAt(c, last, n)| == c.Slots()
    ensures FencesAt(c, last, n + 1) == if n == last then Add(FencesAt(c, last, n), PartSlot(c, p)) else FencesAt(c, last, n)
  {
    hide Plan.Slots, PartSlot, AllBlocks;
    if n == last {
      FencesUp(c, last);
    } else {
      FencesStay(c, last, n);
    }
  }

  lemma {:induction false} SendAllRun(c: Plan, last: nat, p: nat, k: nat)
    requires Chosen(c, last) && p < |c.parts| && k <= |c.parts[p]|
    requires Reachable(c, AtBlockOf(c, last, p, 0))
    ensures Reachable(c, AtBlockOf(c, last, p, k))
  {
    hide Chosen, Reachable, AtBlockOf;
    if k > 0 {
      SendAllRun(c, last, p, k - 1);
      if Sent(c, p) + (k - 1) < last {
        EarlyRun(c, last, p, k - 1);
      } else {
        LateRun(c, last, p, k - 1);
      }
    }
  }

  // ---------- A partition ends ----------

  lemma AwaitingIs(c: Plan, last: nat, p: nat)
    requires Chosen(c, last) && p <= |c.parts|
    ensures last < |AllBlocks(c)| && c.workers <= last && Sent(c, p) <= |AllBlocks(c)|
    ensures Awaiting(c, last, p) ==
            State(PoolAt(c, p, AwayAt(c, last, p)), FencesAt(c, last, Sent(c, p)), multiset(AwayAt(c, last, p)),
                  Main(Receiving, p, None, None), QueueAt(c, last, Sent(c, p)), WorkersAt(c, BusyAt(c, last, Sent(c, p))), QUIET)
  {
    SentMonotone(c, p, |c.parts|);
    hide PoolAt, AwayAt, FencesAt, QueueAt, WorkersAt, BusyAt, PartSlot, AllBlocks, Sent;
  }

  lemma EndStep(c: Plan, s: State, p: nat, k: nat, slot: nat)
    requires Reachable(c, s) && p < |c.parts| && k == |c.parts[p]| && s.main == Main(Dispatching(k, false), p, Some(slot), None)
    ensures Reachable(c, s.(waiters := s.waiters + multiset{slot}, main := Main(Receiving, p + 1, None, None)))
  {
    var t := s.(waiters := s.waiters + multiset{slot}, main := Main(Receiving, p + 1, None, None));
    assert MainEnabled(c, s, EndPartition) && t == DoMain(c, s, EndPartition);
    hide Reachable, MainEnabled, DoMain;
    MainGoes(c, s, EndPartition, t);
  }

  lemma WakeStep(c: Plan, s: State, slot: nat, ready: seq<nat>)
    requires Reachable(c, s) && slot in s.waiters && slot < |s.fences| && s.fences[slot] == 0
    requires slot < |s.pool.ready| && s.pool.ready[slot] == 0 && ready == s.pool.ready[slot := 1]
    ensures Reachable(c, s.(waiters := s.waiters - multiset{slot}, pool := s.pool.(ready := ready)))
  {
    var t := s.(waiters := s.waiters - multiset{slot}, pool := s.pool.(ready := ready));
    assert OtherEnabled(c, s, Wake(slot)) && t == DoOther(c, s, Wake(slot));
    hide Reachable, OtherEnabled, DoOther;
    OtherGoes(c, s, Wake(slot), t);
  }

  // Which slots are away before and after the end of partition p.
  lemma AwayNext(c: Plan, last: nat, p: nat)
    requires Chosen(c, last) && p < |c.parts|
    ensures AwayAt(c, last, p + 1) == if p == LastPart(c, last) then AwayAt(c, last, p) + {PartSlot(c, p)} else AwayAt(c, last, p)
    ensures p == LastPart(c, last) ==> AwayAt(c, last, p) == {}
  {
    hide PartSlot, AllBlocks;
  }

  lemma MultisetGrows(away: set<nat>, slot: nat)
    requires slot !in away
    ensures multiset(away) + multiset{slot} == multiset(away + {slot})
    ensures multiset(away) + multiset{slot} - multiset{slot} == multiset(away)
  {
  }

  lemma PoolIs(c: Plan, p: nat, away: set<nat>)
    ensures PoolAt(c, p, away) == Pool(ReadersAt(c, p), seq(c.Readers(), _ => None), ReadyBut(c, away), false)
  {
  }

  // The fence of a partition other than the last block's is down again.
  lemma FenceDown(c: Plan, last: nat, p: nat, n: nat)
    requires Chosen(c, last) && p < |c.parts| && p != LastPart(c, last)
    requires n > last ==> p > LastPart(c, last)
    ensures PartSlot(c, p) < c.Slots() && FencesAt(c, last, n)[PartSlot(c, p)] == 0
  {
    PartSlotInRange(c, p);
    SlotFree(c, last, p);
    hide Plan.Slots, PartSlot, AllBlocks, LastFull;
  }

  lemma PartOver(c: Plan, last: nat, p: nat)
    requires Chosen(c, last) && p < |c.parts|
    ensures Sent(c, p + 1) == Sent(c, p) + |c.parts[p]|
    ensures Sent(c, p + 1) > last ==> p >= LastPart(c, last)
  {
    NothingSentOf(c, last, p);
    SentMonotone(c, p + 1, |c.parts|);
    if Sent(c, p + 1) > last {
      BeforePartBelow(c, p + 1, last);
      assert BeforePart(c, p + 1)[last] == AllBlocks(c)[last];
    }
  }

  lemma EndRun(c: Plan, last: nat, p: nat)
    requires Chosen(c, last) && p < |c.parts| && Reachable(c, AtBlockOf(c, last, p, |c.parts[p]|))
    ensures Reachable(c, Awaiting(c, last, p + 1))
  {
    hide *;
    var k := |c.parts[p]|;
    AtIs(c, last, p, k);
    var s, slot, away := AtBlockOf(c, last, p, k), PartSlot(c, p), AwayAt(c, last, p);
    AwaitingIs(c, last, p + 1);
    PartOver(c, last, p);
    SlotFree(c, last, p);
    AwayNext(c, last, p);
    MultisetGrows(away, slot);
    ReadyWithout(c, away, slot);
    PoolIs(c, p + 1, away);
    PoolIs(c, p + 1, away + {slot});
    EndStep(c, s, p, k, slot);
    var u := s.(waiters := s.waiters + multiset{slot}, main := Main(Receiving, p + 1, None, None));
    if p != LastPart(c, last) {
      FenceDown(c, last, p, Sent(c, p) + k);
      WakeStep(c, u, slot, ReadyBut(c, away));
    }
  }

  lemma InitIs(c: Plan, last: nat)
    requires Chosen(c, last)
    ensures Awaiting(c, last, 0) == Init(c)
  {
    AwaitingIs(c, last, 0);
    var s, t := Awaiting(c, last, 0), Init(c);
    forall r: nat | r < c.Readers() ensures ReadersAt(c, 0)[r] == t.pool.readers[r] {
      assert Taken(c, 0, r) == 0;
    }
    assert BeforePart(c, 0) == [];
    assert s.pool.readers == t.pool.readers;
    assert s.pool.ready == t.pool.ready && s.fences == t.fences && s.workers == t.workers;
    hide LastFull, LeakAt, Plan.Readers, Plan.Slots, AllBlocks, ReaderAt;
  }

  lemma {:induction false} PartsRun(c: Plan, last: nat, p: nat)
    requires Chosen(c, last) && p <= |c.parts|
    ensures Reachable(c, Awaiting(c, last, p))
  {
    if p == 0 {
      InitIs(c, last);
      assert Reaches(c, [], Init(c));
    } else {
      PartsRun(c, last, p - 1);
      hide *;
      ReceiveRun(c, last, p - 1);
      SendAllRun(c, last, p - 1, |c.parts[p - 1]|);
      EndRun(c, last, p - 1);
    }
  }

  // ---------- The drain ----------

  // The first n workers have left with an error.
  ghost function GoneTo(c: Plan, n: nat): (r: seq<Worker>)
    ensures |r| == c.workers
  {
    seq(c.workers, i => if i < n then Left(true) else Busy)
  }

  ghost function FlagsTo(n: nat): Flags {
    if n == 0 then QUIET else Flags(false, true, true, true, false)
  }

  ghost function DrainingAt(c: Plan, last: nat, n: nat): State
    requires Chosen(c, last)
  {
    Awaiting(c, last, |c.parts|).(main := Main(Draining, |c.parts|, None, None), workers := GoneTo(c, n), flags := FlagsTo(n))
  }

  lemma AllGone(c: Plan)
    ensures ReadersGone(Pool(ReadersAt(c, |c.parts|), seq(c.Readers(), _ => None), [], false))
    ensures forall r :: 0 <= r < c.Readers() ==> ReadersAt(c, |c.parts|)[r].phase == Gone
  {
    var rs := ReadersAt(c, |c.parts|);
    forall r: nat | r < c.Readers() ensures rs[r].phase == Gone {
      PartAfter(c, |c.parts|, r);
    }
  }

  lemma AllBusy(c: Plan, last: nat)
    requires Chosen(c, last)
    ensures Sent(c, |c.parts|) == |AllBlocks(c)| && WorkersAt(c, BusyAt(c, last, |AllBlocks(c)|)) == GoneTo(c, 0)
  {
  }

  lemma CloseSteps(c: Plan, s: State)
    requires Reachable(c, s) && s.main == Main(Receiving, |c.parts|, None, None) && ReadersGone(s.pool)
    ensures Reachable(c, s.(main := Main(Draining, |c.parts|, None, None)))
  {
    var t, u := s.(main := Main(Joining, |c.parts|, None, None)), s.(main := Main(Draining, |c.parts|, None, None));
    assert MainEnabled(c, s, AllParts) && t == DoMain(c, s, AllParts);
    assert MainEnabled(c, t, Join) && u == DoMain(c, t, Join);
    hide Reachable, MainEnabled, DoMain, ReadersGone;
    MainGoes(c, s, AllParts, t);
    MainGoes(c, t, Join, u);
  }

  lemma DrainStarts(c: Plan, last: nat)
    requires Chosen(c, last)
    ensures Reachable(c, DrainingAt(c, last, 0))
  {
    PartsRun(c, last, |c.parts|);
    AwaitingIs(c, last, |c.parts|);
    AllBusy(c, last);
    AllGone(c);
    var s := Awaiting(c, last, |c.parts|);
    assert ReadersGone(s.pool);
    hide Reachable, Awaiting, ReadersAt, ReadersGone, Chosen, Sent, AllBlocks, WorkersAt, BusyAt, GoneTo;
    CloseSteps(c, s);
  }

  // A busy worker cannot build its block, and leaves.
  lemma FailRun(c: Plan, s: State, i: nat)
    requires Reachable(c, s) && i < |s.workers| && s.workers[i] == Busy
    ensures Reachable(c, s.(workers := s.workers[i := Left(true)], flags := s.flags.(errorQueued := true, groupFailed := true, cancelled := true)))
  {
    var t := s.(workers := s.workers[i := Failing], flags := s.flags.(errorQueued := true));
    var u := s.(workers := s.workers[i := Left(true)], flags := s.flags.(errorQueued := true, groupFailed := true, cancelled := true));
    assert s.workers[i := Failing][i := Left(true)] == s.workers[i := Left(true)];
    assert WorkerEnabled(c, s, Fail(i)) && t == DoWorker(c, s, Fail(i));
    assert WorkerEnabled(c, t, Exit(i)) && u == DoWorker(c, t, Exit(i));
    hide Reachable, WorkerEnabled, DoWorker;
    WorkerGoes(c, s, Fail(i), t);
    WorkerGoes(c, t, Exit(i), u);
  }

  // With the build cancelled, a busy worker gives up and leaves.
  lemma GiveUpRun(c: Plan, s: State, i: nat)
    requires Reachable(c, s) && i < |s.workers| && s.workers[i] == Busy && s.flags == FlagsTo(1)
    ensures Reachable(c, s.(workers := s.workers[i := Left(true)]))
  {
    var t, u := s.(workers := s.workers[i := Failing]), s.(workers := s.workers[i := Left(true)]);
    assert s.workers[i := Failing][i := Left(true)] == s.workers[i := Left(true)];
    assert WorkerEnabled(c, s, GiveUp(i)) && t == DoWorker(c, s, GiveUp(i));
    assert WorkerEnabled(c, t, Exit(i)) && u == DoWorker(c, t, Exit(i));
    hide Reachable, WorkerEnabled, DoWorker;
    WorkerGoes(c, s, GiveUp(i), t);
    WorkerGoes(c, t, Exit(i), u);
  }

  lemma GoneMore(c: Plan, n: nat)
    requires n < c.workers
    ensures GoneTo(c, n)[n] == Busy && GoneTo(c, n)[n := Left(true)] == GoneTo(c, n + 1)
  {
  }

  // One worker fails, the others give up.
  lemma {:induction false} WorkersLeave(c: Plan, last: nat, n: nat)
    requires Chosen(c, last) && n <= c.workers
    ensures Reachable(c, DrainingAt(c, last, n))
  {
    if n == 0 {
      DrainStarts(c, last);
    } else {
      WorkersLeave(c, last, n - 1);
      GoneMore(c, n - 1);
      var s := DrainingAt(c, last, n - 1);
      hide Reachable, Awaiting, GoneTo, Chosen;
      if n == 1 {
        FailRun(c, s, 0);
      } else {
        GiveUpRun(c, s, n - 1);
      }
    }
  }

  // ---------- The end ----------

  ghost function Last(c: Plan, last: nat): State
    requires Chosen(c, last)
  {
    DrainingAt(c, last, c.workers).(main := Main(Done(true), |c.parts|, None, Some(false)), flags := Flags(false, true, true, true, true))
  }

  lemma ReturnSteps(c: Plan, s: State)
    requires Reachable(c, s) && s.main == Main(Draining, |c.parts|, None, None) && s.flags == Flags(false, true, true, true, false) && WorkersLeft(s)
    ensures Reachable(c, s.(main := Main(Done(true), |c.parts|, None, Some(false)), flags := Flags(false, true, true, true, true)))
  {
    var t := s.(flags := Flags(false, true, true, true, true));
    var u := t.(main := Main(Done(true), |c.parts|, None, Some(false)));
    assert OtherEnabled(c, s, Report) && t == DoOther(c, s, Report);
    assert MainEnabled(c, t, Conclude(true)) && u == DoMain(c, t, Conclude(true));
    hide Reachable, MainEnabled, DoMain, OtherEnabled, DoOther, WorkersLeft;
    OtherGoes(c, s, Report, t);
    MainGoes(c, t, Conclude(true), u);
  }

  lemma LastReached(c: Plan, last: nat)
    requires Chosen(c, last)
    ensures Reachable(c, Last(c, last))
  {
    WorkersLeave(c, last, c.workers);
    var s := DrainingAt(c, last, c.workers);
    assert c.workers > 0 && WorkersLeft(s);
    hide Reachable, Awaiting, GoneTo, Chosen, WorkersLeft;
    ReturnSteps(c, s);
  }

  // The last block's slot: its fence is up, its ready channel empty, its waiter waiting.
  lemma LastSlot(c: Plan, last: nat)
    requires Chosen(c, last)
    ensures var s, slot := Last(c, last), PartSlot(c, LastPart(c, last));
            && slot < c.Slots() == |s.fences| == |s.pool.ready| && s.waiters == multiset{slot} && s.fences[slot] == 1
            && s.pool.readers == ReadersAt(c, |c.parts|) && |s.pool.offers| == c.Readers() && s.workers == GoneTo(c, c.workers)
            && s.main == Main(Done(true), |c.parts|, None, Some(false)) && s.flags == Flags(false, true, true, true, true)
  {
    AwaitingIs(c, last, |c.parts|);
    ChosenFacts(c, last);
    AllBusy(c, last);
    PartSlotInRange(c, LastPart(c, last));
    assert AwayAt(c, last, |c.parts|) == {PartSlot(c, LastPart(c, last))};
    hide Plan.Slots, Plan.Readers, PartSlot, ReadersAt, GoneTo, QueueAt, AllBlocks, Sent, Chosen, LastPart;
  }

  lemma LastEnds(c: Plan, last: nat, step: Step)
    requires Chosen(c, last) && Enabled(c, Last(c, last), step)
    ensures External(step)
  {
    LastSlot(c, last);
    AllGone(c);
    var s := Last(c, last);
    assert forall r :: 0 <= r < |s.pool.readers| ==> s.pool.readers[r].phase == Gone;
    assert forall i :: 0 <= i < |s.workers| ==> s.workers[i] == Left(true);
    hide Last, Plan.Slots, Plan.Readers, ReadersAt, GoneTo, Chosen, LastPart, PartSlot, AtBlock;
  }

  lemma LeakyRun(c: Plan) returns (steps: seq<Step>, s: State)
    requires c.Valid() && Leaky(c)
    ensures LeavesWaiter(c, steps, s)
  {
    var last: nat :| LastFull(c, last) && LeakAt(c, last);
    LastReached(c, last);
    s := Last(c, last);
    steps :| Reaches(c, steps, s);
    LastSlot(c, last);
    hide *;
    forall step | Enabled(c, s, step) ensures External(step) {
      LastEnds(c, last, step);
    }
    LeavesIf(c, steps, s, PartSlot(c, LastPart(c, last)));
  }

  lemma LeavesIf(c: Plan, steps: seq<Step>, s: State, slot: nat)
    requires Reaches(c, steps, s) && (forall step :: Enabled(c, s, step) ==> External(step)) && s.waiters == multiset{slot}
    ensures LeavesWaiter(c, steps, s)
  {
    hide Reaches, Enabled;
    assert slot in s.waiters;
  }

  /** A finish can leave a goroutine waiting for a fence, after the call has returned and every
      reader and worker is gone, exactly if the plan is leaky. */
  lemma LeaksExactly(c: Plan)
    requires c.Valid()
    ensures (exists steps, s :: LeavesWaiter(c, steps, s)) <==> Leaky(c)
  {
    hide LeavesWaiter, Leaky;
    if Leaky(c) {
      var steps, s := LeakyRun(c);
    }
    if steps, s :| LeavesWaiter(c, steps, s) {
      LeakNeeds(c, steps, s);
    }
  }

  /** The least such plan for two workers, one partition of three blocks with entries: the claim
      that every fence is released on failure paths too is false. */
  lemma ThreeBlocksLeak() returns (steps: seq<Step>, s: State)
    ensures Plan([[true, true, true]], 2).Valid() && LeavesWaiter(Plan([[true, true, true]], 2), steps, s)
  {
    var c := Plan([[true, true, true]], 2);
    assert BeforePart(c, 1) == BeforePart(c, 0) + OfPart(c, 0) == OfPart(c, 0);
    assert AllBlocks(c) == OfPart(c, 0);
    assert LastFull(c, 2) && LeakAt(c, 2);
    hide AllBlocks, LastFull, LeakAt;
    steps, s := LeakyRun(c);
  }
}
