/** All ways to build agree: serial or parallel, sorted or unsorted, the same keys give the
    same index, and the index answers them. */
module BuildModes {
  import opened Basics
  import opened LittleEndian
  import opened Grouping
  import opened IndexFormat
  import opened IndexWriter
  import opened IndexReader
  import opened IndexLookup
  import opened IndexVerify
  import opened Routing
  import opened BlockBuilding
  import opened SortedBuilder
  import opened Pipeline
  import opened PipelineContent
  import opened PipelineResult
  import opened PipelineRuns
  import opened UnsortedLayout
  import opened UnsortedReader
  import opened UnsortedBlocks
  import opened UnsortedFinish

  // ---------- Serial and parallel ----------

  lemma SameBuilt(j: Job, n: nat)
    requires n == |j.blocks|
    ensures j.AllBuild(n) <==> AllBuild(j.build, j.blocks)
    ensures j.AllBuild(n) ==> j.Built(n) == Built(j.build, j.blocks)
  {
  }

  /** Whatever the interleaving, a parallel build that succeeds publishes the file that the
      serial builder finishes with. */
  lemma ParallelIsSerial(j: Job, added: seq<Entry>, file: seq<Byte>, steps: seq<Step>, s: State)
    requires j.Valid() && j.blocks == BlocksOf(j.c.numBlocks, added, j.c.numBlocks)
    requires Reaches(j, file, steps, s) && s.main.phase == Returned(true)
    ensures j.c.Valid() && AllBuild(j.build, BlocksOf(j.c.numBlocks, added, j.c.numBlocks))
    ensures s.main.published == IndexBytes(j.c, j.h, Built(j.build, BlocksOf(j.c.numBlocks, added, j.c.numBlocks)))
  {
    SuccessIsTheIndex(j, file, steps, s);
    SameBuilt(j, |j.blocks|);
    hide Reaches, IndexBytes, AllBuild, Built;
  }

  // ---------- What the dispatcher sends ----------

  lemma {:induction false} SameOffsets(j: Job, added: seq<Entry>, n: nat)
    requires n <= |j.blocks| && j.blocks == BlocksOf(j.c.numBlocks, added, j.c.numBlocks)
    ensures j.KeysBefore(n) == KeysIn(j.c.numBlocks, added, n)
  {
    if n > 0 {
      SameOffsets(j, added, n - 1);
      hide Group;
    }
  }

  lemma {:induction false} DispatchAt(numBlocks: nat, added: seq<Entry>, n: nat, b: nat)
    requires b < n
    ensures Dispatches(numBlocks, added, n)[b] == (b, Group(BlockFn(numBlocks), added, b), KeysIn(numBlocks, added, b))
  {
    if b < n - 1 {
      DispatchAt(numBlocks, added, n - 1, b);
      hide Group, KeysIn;
    }
  }

  /** What the feeder sends for the keys added is the job: every block once, in order, with its
      entries and the keys before it. */
  lemma FeederSendsTheJob(j: Job, added: seq<Entry>, b: nat)
    requires j.blocks == BlocksOf(j.c.numBlocks, added, j.c.numBlocks) && b < |j.blocks|
    ensures |Dispatches(j.c.numBlocks, added, j.c.numBlocks)| == |j.blocks|
    ensures Dispatches(j.c.numBlocks, added, j.c.numBlocks)[b] == (b, j.blocks[b], j.KeysBefore(b))
  {
    SameOffsets(j, added, b);
    DispatchAt(j.c.numBlocks, added, j.c.numBlocks, b);
    hide Group, KeysIn, Job.KeysBefore, Dispatches;
  }

  // Work for block b is the feeder's b-th dispatch.
  ghost predicate FedBy(j: Job, added: seq<Entry>, w: Work) {
    && w.block < |j.blocks| == j.c.numBlocks
    && Dispatches(j.c.numBlocks, added, j.c.numBlocks)[w.block] == (w.block, j.blocks[w.block], w.keysBefore)
  }

  /** In every run of the pipeline, what is queued for the workers or held by one is something the
      feeder sent, and so is what the dispatcher sends next. */
  lemma PipelineRunsTheFeed(j: Job, added: seq<Entry>, file: seq<Byte>, steps: seq<Step>, s: State)
    requires j.Valid() && j.blocks == BlocksOf(j.c.numBlocks, added, j.c.numBlocks) && Reaches(j, file, steps, s)
    ensures forall k :: 0 <= k < |s.workChan| ==> FedBy(j, added, s.workChan[k])
    ensures forall i :: 0 <= i < |s.pool.workers| && s.pool.workers[i].Holding? ==> FedBy(j, added, s.pool.workers[i].work)
    ensures s.main.next < |j.blocks| ==> FedBy(j, added, Work(s.main.next, s.main.keysBefore))
  {
    hide *;
    ReachedSound(j, file, steps, s);
    SoundWork(j, s);
    forall w: Work | GoodWork(j, w) ensures FedBy(j, added, w) {
      GoodIsFed(j, added, w);
    }
  }

  lemma GoodIsFed(j: Job, added: seq<Entry>, w: Work)
    requires j.blocks == BlocksOf(j.c.numBlocks, added, j.c.numBlocks) && GoodWork(j, w)
    ensures FedBy(j, added, w)
  {
    FeederSendsTheJob(j, added, w.block);
    hide Dispatches, BlocksOf, Job.KeysBefore;
  }

  lemma SoundWork(j: Job, s: State)
    requires Sound(j, s)
    ensures forall k :: 0 <= k < |s.workChan| ==> GoodWork(j, s.workChan[k])
    ensures forall i :: 0 <= i < |s.pool.workers| && s.pool.workers[i].Holding? ==> GoodWork(j, s.pool.workers[i].work)
    ensures s.main.next < |j.blocks| ==> GoodWork(j, Work(s.main.next, s.main.keysBefore))
  {
    assert forall i :: 0 <= i < |s.pool.workers| ==> GoodWorker(j, s.writer.iw.file, s.pool.workers[i]);
  }

  // Keys that arrive block by block.
  ghost predicate InBlockOrder(numBlocks: nat, keys: seq<Entry>) {
    forall i, k :: 0 <= i <= k < |keys| ==> Route(keys[i].k0, numBlocks) <= Route(keys[k].k0, numBlocks)
  }

  /** Feeding keys in block order and finishing sends the job of those keys. */
  method Feed(numBlocks: nat, keys: seq<Entry>) returns (dispatched: seq<(nat, seq<Entry>, nat)>)
    requires numBlocks > 0 && InBlockOrder(numBlocks, keys)
    ensures dispatched == Dispatches(numBlocks, keys, numBlocks)
  {
    var feeder := new Feeder(numBlocks);
    hide Group, KeysIn, Dispatches, Feeder.Sent;
    assert keys[..0] == [];
    for i := 0 to |keys|
      invariant feeder.Valid() && feeder.added == keys[..i] && fresh(feeder) && feeder.numBlocks == numBlocks
      invariant feeder.firstKey <==> i == 0
      invariant i > 0 ==> feeder.currentBlockIdx == Route(keys[i - 1].k0, numBlocks)
    {
      assert keys[..i + 1] == keys[..i] + [keys[i]];
      feeder.AddKey(keys[i]);
    }
    assert keys[..|keys|] == keys;
    feeder.Finish();
    feeder.IsSent(numBlocks);
    dispatched := feeder.dispatched;
  }

  // ---------- Sorted and unsorted ----------

  // The order in which a block's keys are added does not matter.
  ghost predicate OrderFree(build: BlockBuilder) {
    forall a, b {:trigger build(a), build(b)} :: multiset(a) == multiset(b) ==> build(a) == build(b)
  }

  // Without a payload field, payloads do not matter.
  ghost predicate PayloadFree(l: Layout, build: BlockBuilder) {
    forall es :: build(TrimAll(l, es)) == build(es)
  }

  /** A block builds the same from what the unsorted writers give it and from the sorted keys. */
  lemma SameBlock(l: Layout, build: BlockBuilder, writers: seq<seq<Entry>>, added: seq<Entry>, b: nat)
    requires OrderFree(build) && PayloadFree(l, build) && multiset(Concat(writers)) == multiset(added)
    ensures build(BlockEntries(l, writers, b)) == build(Group(BlockFn(l.numBlocks), added, b))
  {
    EntriesOfBlock(l, writers, b);
    var theirs := Group(l.BlockOf(), Concat(writers), b);
    assert build(TrimAll(l, theirs)) == build(theirs);
    GroupPerm(l.BlockOf(), Concat(writers), added, b);
    hide BlockEntries, TrimAll, Group, Concat;
  }

  /** The unsorted build, from disk or in memory, makes the same blocks as the sorted one. */
  lemma UnsortedIsSorted(l: Layout, build: BlockBuilder, writers: seq<seq<Entry>>, added: seq<Entry>, blocks: seq<seq<Entry>>)
    requires OrderFree(build) && PayloadFree(l, build) && multiset(Concat(writers)) == multiset(added)
    requires |blocks| == l.numBlocks
    requires forall b :: 0 <= b < |blocks| ==> blocks[b] == BlockEntries(l, writers, b) || TrimAll(l, blocks[b]) == BlockEntries(l, writers, b)
    ensures AllBuild(build, blocks) <==> AllBuild(build, BlocksOf(l.numBlocks, added, l.numBlocks))
    ensures AllBuild(build, blocks) ==> Built(build, blocks) == Built(build, BlocksOf(l.numBlocks, added, l.numBlocks))
  {
    var sorted := BlocksOf(l.numBlocks, added, l.numBlocks);
    forall b | 0 <= b < |blocks| ensures build(blocks[b]) == build(sorted[b]) {
      SameBlock(l, build, writers, added, b);
      assert build(TrimAll(l, blocks[b])) == build(blocks[b]);
      hide TrimAll, BlockEntries, Concat, Group, OrderFree;
    }
    hide TrimAll, BlockEntries, Concat, OrderFree, PayloadFree, BlocksOf;
  }

  // ---------- The index answers its keys ----------

  // What is built from entries answers them.
  ghost predicate Correct(c: Config, dec: Decoder, build: BlockBuilder) {
    forall es :: build(es).Some? ==> Answers(c, dec, es, build(es).value)
  }

  lemma BlockRouted(numBlocks: nat, added: seq<Entry>, b: nat)
    ensures Routed(Group(BlockFn(numBlocks), added, b), b, numBlocks)
  {
    var es := Group(BlockFn(numBlocks), added, b);
    forall i | 0 <= i < |es| ensures Route(es[i].k0, numBlocks) == b {
      GroupMember(BlockFn(numBlocks), added, b, i);
    }
    hide Group;
  }

  lemma AllAnswered(c: Config, dec: Decoder, build: BlockBuilder, added: seq<Entry>)
    requires Correct(c, dec, build) && AllBuild(build, BlocksOf(c.numBlocks, added, c.numBlocks))
    ensures var blocks := BlocksOf(c.numBlocks, added, c.numBlocks); AllAnswer(c, dec, blocks, Built(build, blocks))
  {
    var blocks := BlocksOf(c.numBlocks, added, c.numBlocks);
    var bs := Built(build, blocks);
    forall b | 0 <= b < c.numBlocks ensures Answers(c, dec, blocks[b], bs[b]) && Routed(blocks[b], b, c.numBlocks) {
      BlockRouted(c.numBlocks, added, b);
      hide Group, Answers, Routed;
    }
    hide Answers, Routed;
  }

  lemma BuiltComplete(c: Config, build: BlockBuilder, added: seq<Entry>)
    requires Builds(c, build) && AllBuild(build, BlocksOf(c.numBlocks, added, c.numBlocks))
    requires |added| == c.totalKeys && c.numBlocks > 0
    ensures Complete(c, Built(build, BlocksOf(c.numBlocks, added, c.numBlocks)))
  {
    BuiltKeys(c, build, c.numBlocks, added, c.numBlocks);
    KeysInAll(c.numBlocks, added, c.numBlocks);
    hide Built, BlocksOf, AllBuild, KeysIn, Sized, Builds, Keys;
  }

  // Where a key is among the blocks.
  ghost function Place(numBlocks: nat, added: seq<Entry>, i: nat): nat
    requires i < |added|
  {
    |Group(BlockFn(numBlocks), added[..i], Route(added[i].k0, numBlocks))|
  }

  lemma PlaceIs(numBlocks: nat, added: seq<Entry>, i: nat)
    requires i < |added| && numBlocks > 0
    ensures var b, blocks := Route(added[i].k0, numBlocks), BlocksOf(numBlocks, added, numBlocks);
            b < |blocks| && Place(numBlocks, added, i) < |blocks[b]| && blocks[b][Place(numBlocks, added, i)] == added[i]
  {
    GroupAt(BlockFn(numBlocks), added, i);
    hide Group;
  }

  // The rank of the i-th key added.
  ghost function RankOf(c: Config, dec: Decoder, build: BlockBuilder, added: seq<Entry>, i: nat): nat
    requires AllBuild(build, BlocksOf(c.numBlocks, added, c.numBlocks)) && i < |added| && c.numBlocks > 0
  {
    PlaceIs(c.numBlocks, added, i);
    var blocks := BlocksOf(c.numBlocks, added, c.numBlocks);
    Rank(dec, blocks, Built(build, blocks), Route(added[i].k0, c.numBlocks), Place(c.numBlocks, added, i))
  }

  ghost function Ranks(c: Config, dec: Decoder, build: BlockBuilder, added: seq<Entry>): (r: seq<nat>)
    requires AllBuild(build, BlocksOf(c.numBlocks, added, c.numBlocks)) && c.numBlocks > 0
    ensures |r| == |added|
  {
    seq(|added|, i requires 0 <= i < |added| => RankOf(c, dec, build, added, i))
  }

  // What the finished file opens to.
  ghost function Finished(c: Config, h: HashFn, build: BlockBuilder, added: seq<Entry>): Index
    requires c.Valid() && AllBuild(build, BlocksOf(c.numBlocks, added, c.numBlocks))
  {
    var bs := Built(build, BlocksOf(c.numBlocks, added, c.numBlocks));
    Opened(c, FooterOf(h, bs), bs)
  }

  // Keys for a non-empty index whose blocks can all be built, within the format's 40-bit offsets.
  ghost predicate Buildable(c: Config, build: BlockBuilder, added: seq<Entry>) {
    && c.Valid() && c.numBlocks > 0 && |added| == c.totalKeys
    && AllBuild(build, BlocksOf(c.numBlocks, added, c.numBlocks))
    && |Metadata(Built(build, BlocksOf(c.numBlocks, added, c.numBlocks)))| < Pow256(5)
  }

  // A build that succeeded.
  ghost predicate Success(c: Config, build: BlockBuilder, added: seq<Entry>) { Buildable(c, build, added) && Builds(c, build) }

  lemma SuccessIs(c: Config, build: BlockBuilder, added: seq<Entry>)
    requires Success(c, build, added)
    ensures c.Valid() && c.numBlocks > 0 && |added| == c.totalKeys && Builds(c, build)
    ensures AllBuild(build, BlocksOf(c.numBlocks, added, c.numBlocks))
    ensures |Metadata(Built(build, BlocksOf(c.numBlocks, added, c.numBlocks)))| < Pow256(5)
    ensures Complete(c, Built(build, BlocksOf(c.numBlocks, added, c.numBlocks)))
  {
    BuiltComplete(c, build, added);
  }

  /** End to end: in the file a successful build leaves, each key added is answered its rank and
      its own payload. */
  lemma EveryKeyIsFound(c: Config, h: HashFn, dec: Decoder, build: BlockBuilder, added: seq<Entry>, i: nat, key: seq<Byte>)
    requires Success(c, build, added) && Correct(c, dec, build) && i < |added| && added[i].payload < Pow256(c.payloadSize)
    requires |key| >= 16 && Word(key[0..8]) == added[i].k0 && Word(key[8..16]) == added[i].k1
    ensures c.Valid() && c.numBlocks > 0 && AllBuild(build, BlocksOf(c.numBlocks, added, c.numBlocks))
    ensures Finished(c, h, build, added).Valid()
    ensures QueryPayload(Finished(c, h, build, added), dec, key) == Ok((RankOf(c, dec, build, added, i), added[i].payload))
  {
    hide *;
    SuccessIs(c, build, added);
    AllAnswered(c, dec, build, added);
    PlaceIs(c.numBlocks, added, i);
    var blocks := BlocksOf(c.numBlocks, added, c.numBlocks);
    var bs := Built(build, blocks);
    CompleteBlocks(c, bs);
    QueryFinds(c, FooterOf(h, bs), bs, dec, blocks, Route(added[i].k0, c.numBlocks), Place(c.numBlocks, added, i), key);
    FinishedIs(c, h, build, added);
    RankOfIs(c, dec, build, added, i);
  }

  lemma FinishedIs(c: Config, h: HashFn, build: BlockBuilder, added: seq<Entry>)
    requires c.Valid() && AllBuild(build, BlocksOf(c.numBlocks, added, c.numBlocks))
    ensures var bs := Built(build, BlocksOf(c.numBlocks, added, c.numBlocks));
            Finished(c, h, build, added) == Opened(c, FooterOf(h, bs), bs)
  {
  }

  lemma RankOfIs(c: Config, dec: Decoder, build: BlockBuilder, added: seq<Entry>, i: nat)
    requires AllBuild(build, BlocksOf(c.numBlocks, added, c.numBlocks)) && i < |added| && c.numBlocks > 0
    ensures var b, p, blocks := Route(added[i].k0, c.numBlocks), Place(c.numBlocks, added, i), BlocksOf(c.numBlocks, added, c.numBlocks);
            && b < |blocks| && p < |blocks[b]|
            && RankOf(c, dec, build, added, i) == Rank(dec, blocks, Built(build, blocks), b, p)
  {
    PlaceIs(c.numBlocks, added, i);
    hide Place, Group, Rank;
  }

  // Keys added earlier come earlier in their block.
  lemma PlacesDiffer(numBlocks: nat, added: seq<Entry>, i: nat, k: nat)
    requires i < k < |added| && Route(added[i].k0, numBlocks) == Route(added[k].k0, numBlocks)
    ensures Place(numBlocks, added, i) < Place(numBlocks, added, k)
  {
    GroupApart(BlockFn(numBlocks), added, i, k);
  }

  lemma RanksApart(c: Config, dec: Decoder, build: BlockBuilder, added: seq<Entry>, i: nat, k: nat)
    requires Success(c, build, added) && Correct(c, dec, build) && i < k < |added|
    ensures AllBuild(build, BlocksOf(c.numBlocks, added, c.numBlocks)) && c.numBlocks > 0
    ensures RankOf(c, dec, build, added, i) != RankOf(c, dec, build, added, k)
    ensures RankOf(c, dec, build, added, i) < |added| && RankOf(c, dec, build, added, k) < |added|
  {
    hide *;
    SuccessIs(c, build, added);
    AllAnswered(c, dec, build, added);
    var blocks := BlocksOf(c.numBlocks, added, c.numBlocks);
    var bs := Built(build, blocks);
    CompleteBlocks(c, bs);
    RankOfIs(c, dec, build, added, i);
    RankOfIs(c, dec, build, added, k);
    var b, b' := Route(added[i].k0, c.numBlocks), Route(added[k].k0, c.numBlocks);
    var p, p' := Place(c.numBlocks, added, i), Place(c.numBlocks, added, k);
    RankInBlock(c, bs, dec, blocks, b, p);
    RankInBlock(c, bs, dec, blocks, b', p');
    if b == b' {
      PlacesDiffer(c.numBlocks, added, i, k);
      RanksDiffer(c, bs, dec, blocks, b, p, b', p');
    } else if b < b' {
      RanksDiffer(c, bs, dec, blocks, b, p, b', p');
    } else {
      RanksDiffer(c, bs, dec, blocks, b', p', b, p);
    }
  }

  lemma OnlyRank(c: Config, dec: Decoder, build: BlockBuilder, added: seq<Entry>, i: nat)
    requires Success(c, build, added) && Correct(c, dec, build) && i < |added|
    ensures AllBuild(build, BlocksOf(c.numBlocks, added, c.numBlocks)) && c.numBlocks > 0
    ensures RankOf(c, dec, build, added, i) < |added|
  {
    hide *;
    SuccessIs(c, build, added);
    AllAnswered(c, dec, build, added);
    var blocks := BlocksOf(c.numBlocks, added, c.numBlocks);
    CompleteBlocks(c, Built(build, blocks));
    RankOfIs(c, dec, build, added, i);
    RankInBlock(c, Built(build, blocks), dec, blocks, Route(added[i].k0, c.numBlocks), Place(c.numBlocks, added, i));
  }

  /** The index is a minimal perfect hash: the ranks of the N keys are 0 .. N - 1, each once. */
  lemma RanksAreAll(c: Config, dec: Decoder, build: BlockBuilder, added: seq<Entry>)
    requires Success(c, build, added) && Correct(c, dec, build)
    ensures AllBuild(build, BlocksOf(c.numBlocks, added, c.numBlocks)) && c.numBlocks > 0
    ensures NoDup(Ranks(c, dec, build, added))
    ensures (set r | r in Ranks(c, dec, build, added)) == Range(|added|)
  {
    SuccessIs(c, build, added);
    var ranks := Ranks(c, dec, build, added);
    hide Success, Correct, RankOf, AllBuild, Builds, BlocksOf, Built, Complete;
    forall i, k | 0 <= i < k < |added| ensures ranks[i] != ranks[k] { RanksApart(c, dec, build, added, i, k); }
    forall i | 0 <= i < |added| ensures ranks[i] < |added| { OnlyRank(c, dec, build, added, i); }
    Pigeonhole(ranks);
  }

  // Every block an algorithm builds is answered within range.
  ghost predicate InRange(dec: Decoder, build: BlockBuilder) {
    forall es :: build(es).Some? ==> StaysInRange(dec, build(es).value)
  }

  /** Keys that were never added are answered a rank below N, or an error. */
  lemma AnyKeyStaysInRange(c: Config, h: HashFn, dec: Decoder, build: BlockBuilder, added: seq<Entry>, k0: UInt64, k1: UInt64, check: bool)
    requires Success(c, build, added) && InRange(dec, build)
    ensures c.Valid() && AllBuild(build, BlocksOf(c.numBlocks, added, c.numBlocks)) && Finished(c, h, build, added).Valid()
    ensures var r := Lookup(Finished(c, h, build, added), dec, k0, k1, check); r.Ok? ==> r.value < |added|
  {
    SuccessIs(c, build, added);
    FinishedIs(c, h, build, added);
    var blocks := BlocksOf(c.numBlocks, added, c.numBlocks);
    var bs := Built(build, blocks);
    forall b | 0 <= b < |bs| ensures StaysInRange(dec, bs[b]) {
      assert bs[b] == build(blocks[b]).value;
      hide StaysInRange, BlocksOf, Success;
    }
    hide *;
    LookupStaysInRange(c, FooterOf(h, bs), bs, dec, k0, k1, check);
  }

  /** And it verifies. */
  lemma FinishedVerifies(c: Config, h: HashFn, build: BlockBuilder, added: seq<Entry>)
    requires Success(c, build, added)
    ensures c.Valid() && AllBuild(build, BlocksOf(c.numBlocks, added, c.numBlocks))
    ensures Finished(c, h, build, added).Valid() && Verdict(Finished(c, h, build, added), h) == None
    ensures Finished(c, h, build, added).data == IndexBytes(c, h, Built(build, BlocksOf(c.numBlocks, added, c.numBlocks)))
  {
    hide *;
    SuccessIs(c, build, added);
    FinishedIs(c, h, build, added);
    VerifyAccepts(c, Built(build, BlocksOf(c.numBlocks, added, c.numBlocks)), h);
  }
}
