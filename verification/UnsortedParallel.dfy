/** The unsorted build with workers: its parallel finish, run on the partitions of a layout,
    publishes the file of the serial sorted build. */
module UnsortedParallel {
  import opened Basics
  import opened Encoding
  import opened Grouping
  import opened IndexFormat
  import opened IndexWriter
  import opened Routing
  import opened BlockBuilding
  import opened SortedBuilder
  import opened UnsortedLayout
  import opened UnsortedReader
  import opened UnsortedBlocks
  import opened UnsortedFinish
  import BuildModes
  import R = ReadSlots
  import RD = ReadSlotsDelivery
  import P = Pipeline
  import SP = SlotPipeline
  import SL = SlotPipelineLink
  import SR = SlotPipelineRuns

  // ---------- The plan of a layout ----------

  // The blocks of partition p, and which of them have entries.
  function PartPlan(l: Layout, blocks: seq<seq<Entry>>, p: nat): (r: seq<bool>)
    requires |blocks| == l.numBlocks
    ensures |r| == LocalBlocks(l, p)
  {
    seq(LocalBlocks(l, p), k requires 0 <= k < LocalBlocks(l, p) => |blocks[l.BlockAt(p, k)]| > 0)
  }

  function PlanOf(l: Layout, blocks: seq<seq<Entry>>, workers: nat): R.Plan
    requires |blocks| == l.numBlocks
  {
    R.Plan(seq(l.numPartitions, p requires 0 <= p < l.numPartitions => PartPlan(l, blocks, p)), workers)
  }

  // The blocks of the partitions below p.
  function BlocksBelow(l: Layout, p: nat): nat {
    if l.BlockAt(p, 0) <= l.numBlocks then l.BlockAt(p, 0) else l.numBlocks
  }

  lemma BelowNext(l: Layout, p: nat)
    requires l.Valid()
    ensures BlocksBelow(l, p + 1) == BlocksBelow(l, p) + LocalBlocks(l, p)
    ensures LocalBlocks(l, p) > 0 ==> BlocksBelow(l, p) == l.BlockAt(p, 0)
    ensures l.BlockAt(p + 1, 0) == l.BlockAt(p, 0) + l.blocksPerPart
  {
  }

  // Block b, by its partition.
  function BlockInfo(l: Layout, blocks: seq<seq<Entry>>, b: nat): RD.Dispatch
    requires l.blocksPerPart > 0 && b < |blocks|
  {
    RD.Dispatch(b / l.blocksPerPart, |blocks[b]| > 0)
  }

  // Block k of partition p comes behind those of the partitions below.
  lemma BlockIs(l: Layout, blocks: seq<seq<Entry>>, workers: nat, p: nat, k: nat)
    requires l.Valid() && |blocks| == l.numBlocks && p < l.numPartitions && k < LocalBlocks(l, p)
    ensures BlocksBelow(l, p) + k < |blocks|
    ensures |RD.OfPart(PlanOf(l, blocks, workers), p)| == LocalBlocks(l, p)
    ensures RD.OfPart(PlanOf(l, blocks, workers), p)[k] == BlockInfo(l, blocks, BlocksBelow(l, p) + k)
  {
    BelowNext(l, p);
    DivUnique(l.BlockAt(p, k), l.blocksPerPart, p, k);
  }

  lemma {:induction false} BeforeIs(l: Layout, blocks: seq<seq<Entry>>, workers: nat, p: nat)
    requires l.Valid() && |blocks| == l.numBlocks && p <= l.numPartitions
    ensures var before := RD.BeforePart(PlanOf(l, blocks, workers), p);
            && |before| == BlocksBelow(l, p) <= |blocks|
            && forall b :: 0 <= b < |before| ==> before[b] == BlockInfo(l, blocks, b)
  {
    var c := PlanOf(l, blocks, workers);
    if p > 0 {
      BeforeIs(l, blocks, workers, p - 1);
      BelowNext(l, p - 1);
      var before, own := RD.BeforePart(c, p - 1), RD.OfPart(c, p - 1);
      assert RD.BeforePart(c, p) == before + own;
      assert |own| == LocalBlocks(l, p - 1);
      hide BlockInfo, BlocksBelow, LocalBlocks, RD.BeforePart, RD.OfPart, PlanOf, Offset;
      forall b | 0 <= b < |before + own| ensures b < |blocks| && (before + own)[b] == BlockInfo(l, blocks, b) {
        if b >= |before| {
          BlockIs(l, blocks, workers, p - 1, b - |before|);
        }
      }
    }
  }

  lemma AllBelow(l: Layout)
    requires l.Valid()
    ensures BlocksBelow(l, l.numPartitions) == l.numBlocks
  {
  }

  /** The plan lists the blocks in order, each with its partition and whether it has entries. */
  lemma PlanFits(l: Layout, j: P.Job)
    requires l.Valid() && j.Valid() && |j.blocks| == l.numBlocks && j.workers > 1
    ensures SL.Fits(PlanOf(l, j.blocks, j.workers), j)
  {
    var c := PlanOf(l, j.blocks, j.workers);
    BeforeIs(l, j.blocks, j.workers, l.numPartitions);
    AllBelow(l);
    assert c.Valid() && c.workers == j.workers && |c.parts| == l.numPartitions;
    hide P.Job.Valid, RD.BeforePart, PlanOf, BlocksBelow, Offset;
    forall b | 0 <= b < |j.blocks| ensures RD.AllBlocks(c)[b].full == (|j.blocks[b]| > 0) {
      assert RD.AllBlocks(c)[b] == BlockInfo(l, j.blocks, b);
    }
  }

  // ---------- What the workers read ----------

  /** A worker that holds block b from a slot: if the slot was filled with what the reading of its
      partition delivers, the worker reads the entries of block b. */
  lemma HeldEntries(l: Layout, j: P.Job, writers: seq<seq<Entry>>, s: SP.State, i: nat, read: seq<seq<Entry>>)
    requires l.Valid() && |j.blocks| == l.numBlocks && SL.Good(PlanOf(l, j.blocks, j.workers), j, s)
    requires forall b :: 0 <= b < |j.blocks| ==> j.blocks[b] == BlockEntries(l, writers, b)
    requires i < |s.slots.workers| && s.slots.workers[i].Holding? && s.slots.workers[i].item.Fenced?
    requires var slot := s.slots.workers[i].item.slot;
             slot < |s.contents| && s.contents[slot].Some? ==> BlocksRead(l, writers, s.contents[slot].value, read)
    ensures i < |s.pipe.pool.workers| && s.pipe.pool.workers[i].Holding?
    ensures var b := s.pipe.pool.workers[i].work.block;
            b < |j.blocks| && b % l.blocksPerPart < |read| && read[b % l.blocksPerPart] == j.blocks[b]
  {
    hide *;
    SR.HeldIsIntact(PlanOf(l, j.blocks, j.workers), j, s, i);
    var b := s.pipe.pool.workers[i].work.block;
    PartOfBlock(l, j.blocks, j.workers, b);
    ReadAt(l, writers, b, read);
  }

  lemma PartOfBlock(l: Layout, blocks: seq<seq<Entry>>, workers: nat, b: nat)
    requires l.Valid() && |blocks| == l.numBlocks && b < |blocks|
    ensures var all := RD.AllBlocks(PlanOf(l, blocks, workers)); b < |all| && all[b].part == b / l.blocksPerPart
  {
    BeforeIs(l, blocks, workers, l.numPartitions);
    AllBelow(l);
    hide RD.BeforePart, BlocksBelow;
  }

  lemma ReadAt(l: Layout, writers: seq<seq<Entry>>, b: nat, read: seq<seq<Entry>>)
    requires l.Valid() && b < l.numBlocks && BlocksRead(l, writers, b / l.blocksPerPart, read)
    ensures b % l.blocksPerPart < |read| && read[b % l.blocksPerPart] == BlockEntries(l, writers, b)
  {
    hide BlockEntries;
    assert b == l.BlockAt(b / l.blocksPerPart, b % l.blocksPerPart);
  }

  // ---------- The file it leaves ----------

  /** Whatever the interleaving of readers, caller, workers and writer, and however the keys were
      spread over the unsorted writers: a parallel finish without an error publishes the file that
      the serial builder makes of the sorted keys. */
  lemma ParallelIsSerial(l: Layout, j: P.Job, writers: seq<seq<Entry>>, added: seq<Entry>, file: seq<Byte>,
                         steps: seq<SP.Step>, s: SP.State)
    requires l.Valid() && SP.Counted(j) && |j.blocks| == l.numBlocks == j.c.numBlocks && j.workers > 1
    requires forall b :: 0 <= b < |j.blocks| ==> j.blocks[b] == BlockEntries(l, writers, b)
    requires multiset(Concat(writers)) == multiset(added)
    requires BuildModes.OrderFree(j.build) && BuildModes.PayloadFree(l, j.build)
    requires SP.Reaches(PlanOf(l, j.blocks, j.workers), j, file, steps, s) && s.slots.main.result == Some(true)
    ensures j.c.Valid() && AllBuild(j.build, BlocksOf(j.c.numBlocks, added, j.c.numBlocks))
    ensures s.pipe.main.published == IndexBytes(j.c, j.h, Built(j.build, BlocksOf(j.c.numBlocks, added, j.c.numBlocks)))
  {
    assert j.Valid();
    hide SP.Reaches, SP.Counted, P.Job.Valid, IndexBytes, BlockEntries, BlocksOf, BuildModes.OrderFree, BuildModes.PayloadFree;
    PlanFits(l, j);
    SR.NilPublishes(PlanOf(l, j.blocks, j.workers), j, file, steps, s);
    BuildModes.SameBuilt(j, |j.blocks|);
    BuildModes.UnsortedIsSorted(l, j.build, writers, added, j.blocks);
  }
}
