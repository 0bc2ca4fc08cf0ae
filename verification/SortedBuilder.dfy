/** The sorted build: keys arriving in block order are collected block by block; serially each
    block is built and committed, in parallel it is dispatched. */
module SortedBuilder {
  import opened Basics
  import opened LittleEndian
  import opened Encoding
  import opened Files
  import opened Grouping
  import opened IndexFormat
  import opened IndexWriter
  import opened Routing
  import opened BlockBuilding

  datatype BuildError = UnsortedInput | KeyCountMismatch | BlockFailed | WriteFailed

  // The entries of the first n blocks.
  ghost function BlocksOf(numBlocks: nat, added: seq<Entry>, n: nat): (r: seq<seq<Entry>>)
    ensures |r| == n
  {
    Groups(BlockFn(numBlocks), added, n)
  }

  // Keys that arrived in block order, up to block `current`.
  ghost predicate UpTo(numBlocks: nat, added: seq<Entry>, current: nat) {
    forall i :: 0 <= i < |added| ==> Route(added[i].k0, numBlocks) <= current
  }

  lemma {:induction false} NoneLater(numBlocks: nat, added: seq<Entry>, current: nat, b: nat)
    requires UpTo(numBlocks, added, current) && current < b
    ensures Group(BlockFn(numBlocks), added, b) == []
  {
    if |added| > 0 {
      NoneLater(numBlocks, added[..|added| - 1], current, b);
    }
  }

  // A key of block `at` changes no earlier block.
  lemma EarlierBlocksKept(numBlocks: nat, added: seq<Entry>, e: Entry, n: nat)
    requires n <= Route(e.k0, numBlocks)
    ensures BlocksOf(numBlocks, added + [e], n) == BlocksOf(numBlocks, added, n)
  {
    forall b | 0 <= b < n ensures BlocksOf(numBlocks, added + [e], n)[b] == BlocksOf(numBlocks, added, n)[b] {
      GroupAppend(BlockFn(numBlocks), added, e, b);
      hide Group;
    }
  }

  lemma BlocksNext(numBlocks: nat, added: seq<Entry>, n: nat)
    ensures BlocksOf(numBlocks, added, n + 1) == BlocksOf(numBlocks, added, n) + [Group(BlockFn(numBlocks), added, n)]
  {
    hide Group;
  }

  lemma BuiltNext(build: BlockBuilder, blocks: seq<seq<Entry>>, es: seq<Entry>)
    requires AllBuild(build, blocks) && build(es).Some?
    ensures AllBuild(build, blocks + [es]) && Built(build, blocks + [es]) == Built(build, blocks) + [build(es).value]
  {
  }

  lemma {:induction false} BuiltKeys(c: Config, build: BlockBuilder, numBlocks: nat, added: seq<Entry>, n: nat)
    requires Builds(c, build) && AllBuild(build, BlocksOf(numBlocks, added, n))
    decreases n
    ensures Keys(Built(build, BlocksOf(numBlocks, added, n))) == KeysIn(numBlocks, added, n)
    ensures Sized(c, Built(build, BlocksOf(numBlocks, added, n)))
  {
    hide *;
    if n == 0 {
      BuiltNone(c, build, numBlocks, added);
    } else {
      var front, last := BlocksOf(numBlocks, added, n - 1), Group(BlockFn(numBlocks), added, n - 1);
      BlocksNext(numBlocks, added, n - 1);
      AllBuildFront(build, front, last);
      BuildsAt(c, build, last);
      KeysInNext(numBlocks, added, n);
      BuiltKeys(c, build, numBlocks, added, n - 1);
      BuiltNext(build, front, last);
      PrefixOf(Built(build, front), build(last).value);
      SizedAppend(c, Built(build, front), build(last).value);
    }
  }

  lemma BuiltNone(c: Config, build: BlockBuilder, numBlocks: nat, added: seq<Entry>)
    ensures AllBuild(build, BlocksOf(numBlocks, added, 0))
    ensures Keys(Built(build, BlocksOf(numBlocks, added, 0))) == KeysIn(numBlocks, added, 0)
    ensures Sized(c, Built(build, BlocksOf(numBlocks, added, 0)))
  {
  }

  lemma AllBuildFront(build: BlockBuilder, front: seq<seq<Entry>>, last: seq<Entry>)
    requires AllBuild(build, front + [last])
    ensures AllBuild(build, front) && build(last).Some?
  {
    assert (front + [last])[|front|] == last;
    assert forall b :: 0 <= b < |front| ==> (front + [last])[b] == front[b];
  }

  lemma BuildsAt(c: Config, build: BlockBuilder, es: seq<Entry>)
    requires Builds(c, build) && build(es).Some?
    ensures build(es).value.numKeys == |es| && |build(es).value.payloads| == Offset(|es|, c.EntrySize())
  {
  }

  lemma SizedAppend(c: Config, bs: seq<Block>, b: Block)
    requires Sized(c, bs) && |b.payloads| == Offset(b.numKeys, c.EntrySize())
    ensures Sized(c, bs + [b])
  {
  }

  lemma KeysInNext(numBlocks: nat, added: seq<Entry>, n: nat)
    requires n > 0
    ensures KeysIn(numBlocks, added, n) == KeysIn(numBlocks, added, n - 1) + |Group(BlockFn(numBlocks), added, n - 1)|
  {
  }

  // The keys of the first n blocks.
  ghost function KeysIn(numBlocks: nat, added: seq<Entry>, n: nat): nat {
    if n == 0 then 0 else KeysIn(numBlocks, added, n - 1) + |Group(BlockFn(numBlocks), added, n - 1)|
  }

  lemma {:induction false} KeysInAppend(numBlocks: nat, added: seq<Entry>, e: Entry, n: nat)
    ensures KeysIn(numBlocks, added + [e], n) == KeysIn(numBlocks, added, n) + if Route(e.k0, numBlocks) < n then 1 else 0
  {
    if n > 0 {
      KeysInAppend(numBlocks, added, e, n - 1);
      GroupAppend(BlockFn(numBlocks), added, e, n - 1);
      hide Group;
    }
  }

  lemma {:induction false} KeysInAll(numBlocks: nat, added: seq<Entry>, n: nat)
    ensures KeysIn(numBlocks, added, n) <= |added|
    ensures n == numBlocks > 0 ==> KeysIn(numBlocks, added, n) == |added|
  {
    if |added| == 0 {
      KeysInNone(numBlocks, n);
    } else {
      var front, last := added[..|added| - 1], added[|added| - 1];
      KeysInAll(numBlocks, front, n);
      assert added == front + [last];
      KeysInAppend(numBlocks, front, last, n);
    }
  }

  lemma {:induction false} KeysInNone(numBlocks: nat, n: nat)
    ensures KeysIn(numBlocks, [], n) == 0
  {
    if n > 0 {
      KeysInNone(numBlocks, n - 1);
    }
  }

  // ---------- What the serial builder has committed ----------

  // The first n blocks are committed, unless there are more keys than announced.
  ghost predicate Progressed(c: Config, h: HashFn, build: BlockBuilder, st: Progress, added: seq<Entry>, n: nat) {
    && st.blockCount == n && c.MetadataRegionOffset() <= st.metadataWriteOffset
    && AllBuild(build, BlocksOf(c.numBlocks, added, n))
    && (|added| <= c.totalKeys ==>
          var bs := Built(build, BlocksOf(c.numBlocks, added, n));
          Committed(c, h, st, bs) && PayloadsAt(c, st.file, bs))
  }

  // Committing the next block.
  lemma ProgressNext(c: Config, h: HashFn, build: BlockBuilder, st: Progress, added: seq<Entry>, n: nat, es: seq<Entry>)
    requires Builds(c, build) && Progressed(c, h, build, st, added, n)
    requires es == Group(BlockFn(c.numBlocks), added, n) && build(es).Some?
    ensures CommitBlock(c, h, st, build(es).value, None, None).1
    ensures Progressed(c, h, build, CommitBlock(c, h, st, build(es).value, None, None).0, added, n + 1)
  {
    var bs, b := Built(build, BlocksOf(c.numBlocks, added, n)), build(es).value;
    BlocksNext(c.numBlocks, added, n);
    BuiltNext(build, BlocksOf(c.numBlocks, added, n), es);
    CommitFields(c, h, st, b);
    if |added| <= c.totalKeys {
      BuiltKeys(c, build, c.numBlocks, added, n + 1);
      BuiltKeys(c, build, c.numBlocks, added, n);
      PrefixOf(bs, b);
      KeysInAll(c.numBlocks, added, n + 1);
      hide *;
      CommitCommits(c, h, st, bs, b);
      ProgressedWhen(c, h, build, CommitBlock(c, h, st, b, None, None).0, added, n + 1);
    } else {
      hide CommitBlock, Built, AllBuild, BlocksOf, Builds;
    }
  }

  lemma ProgressedWhen(c: Config, h: HashFn, build: BlockBuilder, st: Progress, added: seq<Entry>, n: nat)
    requires AllBuild(build, BlocksOf(c.numBlocks, added, n)) && |added| <= c.totalKeys
    requires Committed(c, h, st, Built(build, BlocksOf(c.numBlocks, added, n)))
    requires PayloadsAt(c, st.file, Built(build, BlocksOf(c.numBlocks, added, n)))
    ensures Progressed(c, h, build, st, added, n)
  {
    CommittedOffset(c, h, st, Built(build, BlocksOf(c.numBlocks, added, n)));
    hide Committed, PayloadsAt, AllBuild, Built;
  }

  lemma CommitFields(c: Config, h: HashFn, st: Progress, b: Block)
    requires c.MetadataRegionOffset() <= st.metadataWriteOffset
    ensures var (after, ok) := CommitBlock(c, h, st, b, None, None);
            ok && after.blockCount == st.blockCount + 1 && st.metadataWriteOffset <= after.metadataWriteOffset
  {
    hide WriteAt, Config.MetadataRegionOffset, Config.PayloadOffset, PutLE;
  }

  // A key of a block not yet committed changes nothing committed.
  lemma ProgressKept(c: Config, h: HashFn, build: BlockBuilder, st: Progress, added: seq<Entry>, n: nat, e: Entry)
    requires Progressed(c, h, build, st, added, n) && n <= Route(e.k0, c.numBlocks)
    ensures Progressed(c, h, build, st, added + [e], n)
  {
    EarlierBlocksKept(c.numBlocks, added, e, n);
    hide Committed, PayloadsAt, AllBuild, Built, BlocksOf;
  }

  // ---------- The parallel builder's dispatches ----------

  // The first n blocks, each with its number, its entries and the keys before it.
  ghost function Dispatches(numBlocks: nat, added: seq<Entry>, n: nat): (r: seq<(nat, seq<Entry>, nat)>)
    ensures |r| == n
  {
    if n == 0 then []
    else Dispatches(numBlocks, added, n - 1) + [(n - 1, Group(BlockFn(numBlocks), added, n - 1), KeysIn(numBlocks, added, n - 1))]
  }

  lemma {:induction false} DispatchesKept(numBlocks: nat, added: seq<Entry>, e: Entry, n: nat)
    requires n <= Route(e.k0, numBlocks)
    ensures Dispatches(numBlocks, added + [e], n) == Dispatches(numBlocks, added, n)
  {
    if n > 0 {
      DispatchesKept(numBlocks, added, e, n - 1);
      GroupAppend(BlockFn(numBlocks), added, e, n - 1);
      KeysInAppend(numBlocks, added, e, n - 1);
      hide Group, KeysIn;
    }
  }

  // Collects keys as the serial builder does, and sends each block to the workers: `dispatched`
  // is what was sent, each block with its number and the keys before it.
  class Feeder {
    const numBlocks: nat
    var pendingEntries: seq<Entry>
    var firstKey: bool
    var currentBlockIdx: nat
    var nextBlockToWrite: nat
    var keysBefore: nat
    var dispatched: seq<(nat, seq<Entry>, nat)>
    ghost var added: seq<Entry>

    constructor (numBlocks: nat)
      requires numBlocks > 0
      ensures Valid() && added == [] && firstKey && this.numBlocks == numBlocks
    {
      this.numBlocks := numBlocks;
      pendingEntries, firstKey, currentBlockIdx, nextBlockToWrite, keysBefore := [], true, 0, 0, 0;
      dispatched, added := [], [];
    }

    // Block b is sent as number b with its entries and the keys of the blocks before it.
    ghost predicate Sent(n: nat)
      reads `dispatched, `added
    {
      dispatched == Dispatches(numBlocks, added, n)
    }

    ghost predicate Valid()
      reads this
    {
      && numBlocks > 0 && Sent(nextBlockToWrite) && keysBefore == KeysIn(numBlocks, added, nextBlockToWrite)
      && (firstKey ==> added == [] && pendingEntries == [] && nextBlockToWrite == 0)
      && (!firstKey ==>
            && nextBlockToWrite == currentBlockIdx < numBlocks && UpTo(numBlocks, added, currentBlockIdx)
            && pendingEntries == Group(BlockFn(numBlocks), added, currentBlockIdx) && |pendingEntries| > 0)
    }

    method DispatchBlockWork(blockID: nat, entries: seq<Entry>)
      requires Sent(nextBlockToWrite) && blockID == nextBlockToWrite && keysBefore == KeysIn(numBlocks, added, nextBlockToWrite)
      requires entries == Group(BlockFn(numBlocks), added, blockID)
      modifies `dispatched, `keysBefore, `nextBlockToWrite
      ensures Sent(nextBlockToWrite) && nextBlockToWrite == blockID + 1
      ensures keysBefore == KeysIn(numBlocks, added, nextBlockToWrite)
    {
      KeysInNext(numBlocks, added, blockID + 1);
      hide Group, KeysIn, Route;
      dispatched := dispatched + [(blockID, entries, keysBefore)];
      keysBefore := keysBefore + |entries|;
      nextBlockToWrite := blockID + 1;
    }

    // Dispatches the pending block and the empty ones before block `to`.
    method DispatchTo(to: nat)
      requires Valid() && to <= numBlocks && (!firstKey ==> currentBlockIdx < to)
      modifies `dispatched, `keysBefore, `nextBlockToWrite
      ensures Sent(to) && nextBlockToWrite == to && keysBefore == KeysIn(numBlocks, added, to)
    {
      hide Sent, KeysIn;
      if |pendingEntries| > 0 {
        DispatchBlockWork(currentBlockIdx, pendingEntries);
      }
      while nextBlockToWrite < to
        invariant nextBlockToWrite <= to && Sent(nextBlockToWrite) && keysBefore == KeysIn(numBlocks, added, nextBlockToWrite)
        invariant firstKey || currentBlockIdx < nextBlockToWrite
      {
        if !firstKey {
          NoneLater(numBlocks, added, currentBlockIdx, nextBlockToWrite);
        }
        DispatchBlockWork(nextBlockToWrite, []);
      }
    }

    /** Takes a key in block order. */
    method AddKey(e: Entry)
      requires Valid() && (firstKey || currentBlockIdx <= Route(e.k0, numBlocks))
      modifies this
      ensures Valid() && added == old(added) + [e] && !firstKey && currentBlockIdx == Route(e.k0, numBlocks)
    {
      hide Sent, KeysIn, Group;
      var blockIdx := Route(e.k0, numBlocks);
      if firstKey || blockIdx != currentBlockIdx {
        DispatchTo(blockIdx);
        if !firstKey {
          NoneLater(numBlocks, added, currentBlockIdx, blockIdx);
        } else {
          GroupNone(BlockFn(numBlocks), blockIdx);
        }
        pendingEntries, currentBlockIdx, firstKey := [], blockIdx, false;
      }
      pendingEntries := pendingEntries + [e];
      Extended(e);
      added := added + [e];
      SentIs(nextBlockToWrite);
    }

    lemma IsSent(n: nat)
      requires Sent(n)
      ensures dispatched == Dispatches(numBlocks, added, n)
    {
    }

    lemma SentIs(n: nat)
      requires dispatched == Dispatches(numBlocks, added, n)
      ensures Sent(n)
    {
    }

    lemma Extended(e: Entry)
      requires nextBlockToWrite <= Route(e.k0, numBlocks)
      ensures Group(BlockFn(numBlocks), added + [e], Route(e.k0, numBlocks)) == Group(BlockFn(numBlocks), added, Route(e.k0, numBlocks)) + [e]
      ensures KeysIn(numBlocks, added + [e], nextBlockToWrite) == KeysIn(numBlocks, added, nextBlockToWrite)
      ensures Sent(nextBlockToWrite) ==> dispatched == Dispatches(numBlocks, added + [e], nextBlockToWrite)
    {
      GroupAppend(BlockFn(numBlocks), added, e, Route(e.k0, numBlocks));
      KeysInAppend(numBlocks, added, e, nextBlockToWrite);
      DispatchesKept(numBlocks, added, e, nextBlockToWrite);
    }

    /** Dispatches the rest: every block has been sent once, in order, with its entries and
        its offset. */
    method Finish()
      requires Valid()
      modifies `dispatched, `keysBefore, `nextBlockToWrite
      ensures Sent(numBlocks)
    {
      DispatchTo(numBlocks);
    }
  }

  lemma GroupNone<T>(f: T -> nat, b: nat)
    ensures Group(f, [], b) == []
  {
  }

  // ---------- The serial builder ----------

  class Builder {
    const c: Config
    const h: HashFn
    const build: BlockBuilder
    const iw: Writer
    var keys: seq<Entry>        // of the current block, in the block builder
    var firstKey: bool
    var currentBlockIdx: nat
    var nextBlockToWrite: nat
    var lastBlockID: int
    var totalKeysAdded: nat
    ghost var added: seq<Entry>

    constructor (c: Config, h: HashFn, build: BlockBuilder, iw: Writer)
      requires c.Valid() && Builds(c, build) && c.numBlocks > 0
      requires iw.c == c && iw.h == h && iw.State() == Started(c, iw.file)
      ensures this.iw == iw && this.c == c && this.h == h && this.build == build && Valid() && added == []
    {
      this.c, this.h, this.build, this.iw := c, h, build, iw;
      keys, firstKey, currentBlockIdx, nextBlockToWrite := [], true, 0, 0;
      lastBlockID, totalKeysAdded, added := -1, 0, [];
      new;
      StartedCommitted(c, h, iw.file);
      assert Built(build, BlocksOf(c.numBlocks, [], 0)) == [];
      hide Committed, PayloadsAt;
    }

    ghost predicate Fixed() {
      c.Valid() && Builds(c, build) && c.numBlocks > 0 && iw.c == c && iw.h == h
    }

    // The keys of the current block wait in the block builder, the earlier blocks are written.
    ghost predicate Valid()
      reads this, iw
    {
      && Fixed() && Progressed(c, h, build, iw.State(), added, nextBlockToWrite)
      && totalKeysAdded == |added|
      && (firstKey ==> added == [] && keys == [] && nextBlockToWrite == 0 && lastBlockID == -1)
      && (!firstKey ==>
            && nextBlockToWrite == currentBlockIdx == lastBlockID < c.numBlocks && UpTo(c.numBlocks, added, currentBlockIdx)
            && keys == Group(BlockFn(c.numBlocks), added, currentBlockIdx) && |keys| > 0)
    }

    // Builds and commits a block. `fails` names a block whose commit fails.
    method Commit(es: seq<Entry>, fails: Option<nat>) returns (err: Option<BuildError>)
      requires Fixed() && iw.Valid()
      modifies iw
      ensures iw.Valid() && err != Some(UnsortedInput)
      ensures err.None? ==> build(es).Some? && iw.State() == CommitBlock(c, h, old(iw.State()), build(es).value, None, None).0
      ensures fails.None? && build(es).Some? ==> err.None?
      ensures err == Some(BlockFailed) <==> build(es).None?
      ensures err.Some? ==> err == Some(BlockFailed) || (err == Some(WriteFailed) && fails == Some(old(iw.blockCount)))
    {
      hide CommitBlock, Fixed;
      assert iw.c == c && iw.h == h by { assert Fixed(); FixedIs(); }
      var b := build(es);
      if b.None? {
        return Some(BlockFailed);
      }
      ghost var before := iw.State();
      var fault: Fault := if fails == Some(iw.blockCount) then Some([]) else None;
      var ok := iw.CommitBlockWithData(b.value, fault, fault);
      CommitFields(c, h, before, b.value);
      if !ok {
        return Some(WriteFailed);
      }
      CommittedDespite(c, h, before, b.value, fault);
      err := None;
    }

    lemma FixedIs()
      requires Fixed()
      ensures c.Valid() && Builds(c, build) && build([]).Some? && c.numBlocks > 0 && iw.c == c && iw.h == h
    {
    }

    // Empty blocks up to `to`.
    method CommitGaps(to: nat, fails: Option<nat>) returns (err: Option<BuildError>)
      requires Fixed() && Progressed(c, h, build, iw.State(), added, nextBlockToWrite)
      requires forall b :: nextBlockToWrite <= b < to ==> Group(BlockFn(c.numBlocks), added, b) == []
      modifies iw, `nextBlockToWrite
      ensures err != Some(UnsortedInput)
      ensures err.None? ==> Progressed(c, h, build, iw.State(), added, nextBlockToWrite)
      ensures err.None? ==> nextBlockToWrite == if old(nextBlockToWrite) <= to then to else old(nextBlockToWrite)
      ensures fails.None? ==> err.None?
      ensures err.Some? ==> err == Some(WriteFailed) && fails.Some? && old(nextBlockToWrite) <= fails.value < to
    {
      hide Progressed, CommitBlock, Group, Fixed;
      FixedIs();
      while nextBlockToWrite < to
        invariant Progressed(c, h, build, iw.State(), added, nextBlockToWrite)
        invariant old(nextBlockToWrite) <= to ==> nextBlockToWrite <= to
        invariant old(nextBlockToWrite) <= nextBlockToWrite
        invariant old(nextBlockToWrite) > to ==> nextBlockToWrite == old(nextBlockToWrite)
        invariant forall b :: nextBlockToWrite <= b < to ==> Group(BlockFn(c.numBlocks), added, b) == []
      {
        ProgressedValid(c, h, build, iw.State(), added, nextBlockToWrite);
        ghost var before := iw.State();
        err := Commit([], fails);
        if err.Some? {
          return;
        }
        ProgressNext(c, h, build, before, added, nextBlockToWrite, []);
        nextBlockToWrite := nextBlockToWrite + 1;
      }
      err := None;
    }

    // Builds the current block from the keys collected.
    method BuildBlock(fails: Option<nat>) returns (err: Option<BuildError>)
      requires Fixed() && Progressed(c, h, build, iw.State(), added, nextBlockToWrite)
      requires keys == Group(BlockFn(c.numBlocks), added, nextBlockToWrite)
      modifies iw, `nextBlockToWrite
      ensures err != Some(UnsortedInput)
      ensures err.None? ==> Progressed(c, h, build, iw.State(), added, nextBlockToWrite)
      ensures err.None? ==> nextBlockToWrite == old(nextBlockToWrite) + 1
      ensures fails.None? && build(keys).Some? ==> err.None?
      ensures err == Some(BlockFailed) <==> build(keys).None?
      ensures err.Some? ==> err == Some(BlockFailed) || (err == Some(WriteFailed) && fails == Some(old(nextBlockToWrite)))
    {
      hide Progressed, CommitBlock, Group, Fixed;
      FixedIs();
      ProgressedValid(c, h, build, iw.State(), added, nextBlockToWrite);
      ghost var before := iw.State();
      err := Commit(keys, fails);
      if err.Some? {
        return;
      }
      ProgressNext(c, h, build, before, added, nextBlockToWrite, keys);
      nextBlockToWrite := nextBlockToWrite + 1;
    }

    /** Takes a key in block order, and refuses one of an earlier block. When the block changes, the
        keys so far must build, and nothing else but a failing write keeps a key out. An error ends
        the build. */
    method AddKey(e: Entry, fails: Option<nat>) returns (err: Option<BuildError>)
      requires Valid()
      modifies this, iw
      ensures err == Some(UnsortedInput) <==> Route(e.k0, c.numBlocks) < old(lastBlockID)
      ensures err == Some(UnsortedInput) ==> Valid() && added == old(added)
      ensures err.None? ==> Valid() && added == old(added) + [e]
      ensures err == Some(BlockFailed) <==>
                !old(firstKey) && Route(e.k0, c.numBlocks) > old(lastBlockID) && build(old(keys)).None?
      ensures err == Some(WriteFailed) ==> fails.Some? && old(nextBlockToWrite) <= fails.value < Route(e.k0, c.numBlocks)
      ensures err.Some? ==> err == Some(UnsortedInput) || err == Some(BlockFailed) || err == Some(WriteFailed)
    {
      hide *;
      ValidIs();
      var blockIdx := Route(e.k0, c.numBlocks);
      RouteBelow(e.k0, c.numBlocks);
      if blockIdx < lastBlockID {
        return Some(UnsortedInput);
      }
      lastBlockID := blockIdx;
      if firstKey || blockIdx != currentBlockIdx {
        err := MoveTo(blockIdx, fails);
        if err.Some? {
          return;
        }
      }
      Append(e);
      err := None;
    }

    lemma ValidIs()
      requires Valid()
      ensures Fixed() && Progressed(c, h, build, iw.State(), added, nextBlockToWrite) && totalKeysAdded == |added| && c.numBlocks > 0
      ensures firstKey ==> added == [] && keys == [] && nextBlockToWrite == 0 && lastBlockID == -1
      ensures !firstKey ==>
                && nextBlockToWrite == currentBlockIdx == lastBlockID < c.numBlocks && UpTo(c.numBlocks, added, currentBlockIdx)
                && keys == Group(BlockFn(c.numBlocks), added, currentBlockIdx) && |keys| > 0
    {
    }

    // Writes the current block and the empty ones before block `to`.
    method MoveTo(to: nat, fails: Option<nat>) returns (err: Option<BuildError>)
      requires Fixed() && Progressed(c, h, build, iw.State(), added, nextBlockToWrite)
      requires firstKey ==> added == [] && keys == [] && nextBlockToWrite == 0
      requires !firstKey ==> nextBlockToWrite == currentBlockIdx < to && UpTo(c.numBlocks, added, currentBlockIdx)
      requires !firstKey ==> keys == Group(BlockFn(c.numBlocks), added, currentBlockIdx) && |keys| > 0
      modifies iw, `nextBlockToWrite, `keys, `currentBlockIdx, `firstKey
      ensures err == Some(BlockFailed) <==> !old(firstKey) && build(old(keys)).None?
      ensures err.Some? ==>
                || err == Some(BlockFailed)
                || (err == Some(WriteFailed) && fails.Some? && old(nextBlockToWrite) <= fails.value < to)
      ensures err.None? ==>
                && Progressed(c, h, build, iw.State(), added, nextBlockToWrite) && !firstKey
                && nextBlockToWrite == currentBlockIdx == to && keys == []
                && UpTo(c.numBlocks, added, to) && keys == Group(BlockFn(c.numBlocks), added, to)
    {
      hide Progressed, Fixed;
      if !firstKey && |keys| > 0 {
        err := BuildBlock(fails);
        if err.Some? {
          return;
        }
      }
      forall b | nextBlockToWrite <= b < to ensures Group(BlockFn(c.numBlocks), added, b) == [] {
        if !firstKey {
          NoneLater(c.numBlocks, added, currentBlockIdx, b);
        }
      }
      err := CommitGaps(to, fails);
      if err.Some? {
        return;
      }
      if !firstKey {
        NoneLater(c.numBlocks, added, currentBlockIdx, to);
      }
      keys, currentBlockIdx, firstKey := [], to, false;
      err := None;
    }

    method Append(e: Entry)
      requires Fixed() && Progressed(c, h, build, iw.State(), added, nextBlockToWrite) && !firstKey && totalKeysAdded == |added|
      requires nextBlockToWrite == currentBlockIdx == lastBlockID == Route(e.k0, c.numBlocks)
      requires UpTo(c.numBlocks, added, currentBlockIdx) && keys == Group(BlockFn(c.numBlocks), added, currentBlockIdx)
      modifies `keys, `totalKeysAdded, `added
      ensures Valid() && added == old(added) + [e]
    {
      hide Progressed;
      GroupAppend(BlockFn(c.numBlocks), added, e, currentBlockIdx);
      ProgressKept(c, h, build, iw.State(), added, nextBlockToWrite, e);
      keys := keys + [e];
      totalKeysAdded := totalKeysAdded + 1;
      added := added + [e];
    }

    /** Writes the last block and the empty ones behind it, and finalizes: the file is the
        index of the keys' blocks. Without failures it succeeds exactly if the keys are as
        many as announced. */
    method Finish(fails: Option<nat>, calls: seq<bool>) returns (err: Option<BuildError>)
      requires Valid() && |calls| == 8
      modifies this, iw
      ensures added == old(added)
      ensures err == Some(KeyCountMismatch) <==> |added| != c.totalKeys
      ensures err.None? ==>
                && |added| == c.totalKeys && c.Valid() && AllBuild(build, BlocksOf(c.numBlocks, added, c.numBlocks))
                && iw.file == IndexBytes(c, h, Built(build, BlocksOf(c.numBlocks, added, c.numBlocks)))
      ensures |added| == c.totalKeys && fails.None? && (forall i :: 0 <= i < 8 ==> calls[i]) && Fits() ==> err.None?
      ensures err == Some(BlockFailed) <==> |added| == c.totalKeys && |old(keys)| > 0 && build(old(keys)).None?
    {
      hide *;
      ValidIs();
      if totalKeysAdded != c.totalKeys {
        return Some(KeyCountMismatch);
      }
      FixedIs();
      NothingBehind();
      if |keys| > 0 {
        LastBuilds();
        err := BuildBlock(fails);
        if err.Some? {
          return;
        }
      }
      err := CommitGaps(c.numBlocks, fails);
      if err.Some? {
        return;
      }
      NextIsAll();
      FinishedFacts(c, h, build, iw.State(), added);
      StateIs();
      var ok := iw.Finalize(calls);
      if !ok {
        return Some(WriteFailed);
      }
      err := None;
    }

    // Every block builds and the finished index keeps within the estimate.
    ghost predicate Fits()
      reads `added
    {
      && AllBuild(build, BlocksOf(c.numBlocks, added, c.numBlocks))
      && IndexSize(c, Built(build, BlocksOf(c.numBlocks, added, c.numBlocks))) <= c.estimatedSize
    }

    // Behind the current block there are no keys.
    lemma NothingBehind()
      requires Valid()
      ensures forall b :: (if |keys| > 0 then nextBlockToWrite + 1 else nextBlockToWrite) <= b < c.numBlocks ==>
                Group(BlockFn(c.numBlocks), added, b) == []
      ensures (if |keys| > 0 then nextBlockToWrite + 1 else nextBlockToWrite) <= c.numBlocks
    {
      hide Progressed;
      forall b | (if |keys| > 0 then nextBlockToWrite + 1 else nextBlockToWrite) <= b < c.numBlocks
        ensures Group(BlockFn(c.numBlocks), added, b) == []
      {
        if !firstKey {
          NoneLater(c.numBlocks, added, currentBlockIdx, b);
        }
      }
    }

    // If all blocks build, the current one does.
    lemma LastBuilds()
      requires Valid() && |keys| > 0
      ensures keys == Group(BlockFn(c.numBlocks), added, nextBlockToWrite)
      ensures Fits() ==> build(keys).Some?
    {
      hide Progressed, Group, IndexSize, Built;
      if Fits() {
        assert BlocksOf(c.numBlocks, added, c.numBlocks)[nextBlockToWrite] == keys;
      }
    }

    lemma NextIsAll()
      requires Progressed(c, h, build, iw.State(), added, c.numBlocks)
      ensures iw.State().metadataWriteOffset == iw.metadataWriteOffset
      ensures c.MetadataRegionOffset() <= iw.metadataWriteOffset
    {
      hide Committed, PayloadsAt, AllBuild, Built, BlocksOf;
    }

    lemma StateIs()
      requires iw.c == c && c.MetadataRegionOffset() <= iw.metadataWriteOffset
      ensures iw.Valid()
      ensures Fits() ==> IndexSize(c, Built(build, BlocksOf(c.numBlocks, added, c.numBlocks))) <= c.estimatedSize
    {
    }
  }

  lemma FinishedFacts(c: Config, h: HashFn, build: BlockBuilder, st: Progress, added: seq<Entry>)
    requires c.Valid() && Builds(c, build) && c.numBlocks > 0 && |added| == c.totalKeys
    requires Progressed(c, h, build, st, added, c.numBlocks)
    ensures c.MetadataRegionOffset() <= st.metadataWriteOffset && AllBuild(build, BlocksOf(c.numBlocks, added, c.numBlocks))
    ensures var bs := Built(build, BlocksOf(c.numBlocks, added, c.numBlocks));
            && Finalized(c, h, st) == IndexBytes(c, h, bs)
            && st.metadataWriteOffset + FOOTER_SIZE == IndexSize(c, bs)
  {
    var n := c.numBlocks;
    var bs := Built(build, BlocksOf(n, added, n));
    BuiltKeys(c, build, n, added, n);
    KeysInAll(n, added, n);
    hide Config.Valid, PayloadsAt, Finalized, IndexBytes, Sized, Config.MetadataRegionOffset, Built, AllBuild, BlocksOf, KeysIn;
    FinalizedIsIndex(c, h, st, bs);
  }

  function IndexSize(c: Config, bs: seq<Block>): nat { c.MetadataRegionOffset() + |Metadata(bs)| + FOOTER_SIZE }

  lemma RouteBelow(k0: UInt64, numBlocks: nat)
    ensures numBlocks > 0 ==> Route(k0, numBlocks) < numBlocks
  {
  }

  lemma ProgressedValid(c: Config, h: HashFn, build: BlockBuilder, st: Progress, added: seq<Entry>, n: nat)
    requires Progressed(c, h, build, st, added, n)
    ensures c.MetadataRegionOffset() <= st.metadataWriteOffset && st.blockCount == n
  {
  }

  // A commit that succeeds wrote everything.
  lemma CommittedDespite(c: Config, h: HashFn, st: Progress, b: Block, fault: Fault)
    requires c.MetadataRegionOffset() <= st.metadataWriteOffset && CommitBlock(c, h, st, b, fault, fault).1
    ensures CommitBlock(c, h, st, b, fault, fault) == CommitBlock(c, h, st, b, None, None)
  {
    hide WriteAt, Config.MetadataRegionOffset, Config.PayloadOffset, PutLE;
  }
}
