/** Writing an index: blocks committed one after another, then header, tables and footer
    around them. */
module IndexWriter {
  import opened Basics
  import opened LittleEndian
  import opened Encoding
  import opened Files
  import opened IndexFormat

  type HashFn = seq<Byte> -> UInt64

  datatype Config = Config(totalKeys: nat, numBlocks: nat, payloadSize: nat, fingerprintSize: nat, seed: nat, algorithm: nat,
                           userMetadata: seq<Byte>, algoConfig: seq<Byte>, estimatedSize: nat) {
    function EntrySize(): nat { payloadSize + fingerprintSize }

    function AlgoConfigOffset(): nat { HEADER_SIZE + 4 + |userMetadata| }

    function RAMIndexOffset(): nat { AlgoConfigOffset() + 4 + |algoConfig| }

    function PayloadRegionOffset(): nat { RAMIndexOffset() + Offset(numBlocks + 1, RAM_ENTRY_SIZE) }

    function PayloadOffset(keysBefore: nat): nat { PayloadRegionOffset() + Offset(keysBefore, EntrySize()) }

    function MetadataRegionOffset(): nat { PayloadOffset(totalKeys) }

    predicate Valid() {
      && totalKeys < Pow256(5) && numBlocks < MAX_UINT32 && seed < Pow256(8) && algorithm < Pow256(2)
      && payloadSize <= MAX_PAYLOAD_SIZE && fingerprintSize <= MAX_FINGERPRINT_SIZE
      && |userMetadata| < Pow256(4) && |algoConfig| < Pow256(4)
      && (numBlocks == 0 ==> totalKeys == 0)
    }
  }

  // A built block: its metadata, and its entries in slot order.
  datatype Block = Block(metadata: seq<Byte>, payloads: seq<Byte>, numKeys: nat)

  // The writer's fields. A hasher is the bytes it was fed.
  datatype Progress = Progress(file: seq<Byte>, metadataWriteOffset: nat, ramIndex: seq<RAMEntry>, payloadHashed: seq<Byte>,
                               metadataHashed: seq<Byte>, keyCount: nat, blockCount: nat)

  // A failing write may leave any bytes behind.
  type Fault = Option<seq<Byte>>

  // ---------- What the writer's steps do ----------

  function Fold(st: Progress, hash: UInt64): Progress {
    st.(payloadHashed := st.payloadHashed + PutLE(hash, 8))
  }

  function RecordMetadata(c: Config, st: Progress, metadata: seq<Byte>, fault: Fault): (Progress, bool)
    requires c.MetadataRegionOffset() <= st.metadataWriteOffset
  {
    var entry := RAMEntry(st.keyCount, st.metadataWriteOffset - c.MetadataRegionOffset());
    var recorded := st.(ramIndex := st.ramIndex + [entry]);
    if |metadata| == 0 then (recorded, true)
    else match fault
      case Some(torn) => (recorded.(file := WriteAt(st.file, st.metadataWriteOffset, torn)), false)
      case None => (recorded.(file := WriteAt(st.file, st.metadataWriteOffset, metadata),
                              metadataHashed := st.metadataHashed + metadata,
                              metadataWriteOffset := st.metadataWriteOffset + |metadata|), true)
  }

  function Advance(st: Progress, numKeys: nat): Progress {
    st.(keyCount := st.keyCount + numKeys, blockCount := st.blockCount + 1)
  }

  // What the parallel writer does with a block in order; its payloads were written by the worker.
  function WriteMetadata(c: Config, st: Progress, metadata: seq<Byte>, numKeys: nat, fault: Fault): (Progress, bool)
    requires c.MetadataRegionOffset() <= st.metadataWriteOffset
  {
    var (recorded, ok) := RecordMetadata(c, st, metadata, fault);
    (if ok then Advance(recorded, numKeys) else recorded, ok)
  }

  function CommitPayloads(c: Config, h: HashFn, st: Progress, payloads: seq<Byte>, numKeys: nat, fault: Fault): (Progress, bool) {
    if c.EntrySize() > 0 && numKeys > 0 then
      match fault
      case Some(torn) => (st.(file := WriteAt(st.file, c.PayloadOffset(st.keyCount), torn)), false)
      case None => (Fold(st.(file := WriteAt(st.file, c.PayloadOffset(st.keyCount), payloads)), h(payloads)), true)
    else (Fold(st, h([])), true)
  }

  function CommitBlock(c: Config, h: HashFn, st: Progress, b: Block, metadataFault: Fault, payloadFault: Fault): (Progress, bool)
    requires c.MetadataRegionOffset() <= st.metadataWriteOffset
  {
    var (recorded, ok) := RecordMetadata(c, st, b.metadata, metadataFault);
    if !ok then (recorded, false)
    else
      var (committed, ok) := CommitPayloads(c, h, recorded, b.payloads, b.numKeys, payloadFault);
      (if ok then Advance(committed, b.numKeys) else committed, ok)
  }

  // ---------- The blocks so far ----------

  function Keys(bs: seq<Block>): nat {
    if |bs| == 0 then 0 else Keys(bs[..|bs| - 1]) + bs[|bs| - 1].numKeys
  }

  function Metadata(bs: seq<Block>): seq<Byte> {
    if |bs| == 0 then [] else Metadata(bs[..|bs| - 1]) + bs[|bs| - 1].metadata
  }

  function Payloads(bs: seq<Block>): seq<Byte> {
    if |bs| == 0 then [] else Payloads(bs[..|bs| - 1]) + bs[|bs| - 1].payloads
  }

  function BlockHashes(h: HashFn, bs: seq<Block>): seq<Byte> {
    if |bs| == 0 then [] else BlockHashes(h, bs[..|bs| - 1]) + PutLE(h(bs[|bs| - 1].payloads), 8)
  }

  function EntryAfter(bs: seq<Block>): RAMEntry {
    RAMEntry(Keys(bs), |Metadata(bs)|)
  }

  // An entry for each block, and the sentinel.
  function RAMIndex(bs: seq<Block>): (r: seq<RAMEntry>)
    ensures |r| == |bs| + 1
  {
    (if |bs| == 0 then [] else RAMIndex(bs[..|bs| - 1])) + [EntryAfter(bs)]
  }

  // Every block carries one entry of the configured size per key.
  ghost predicate Sized(c: Config, bs: seq<Block>) {
    forall i :: 0 <= i < |bs| ==> |bs[i].payloads| == Offset(bs[i].numKeys, c.EntrySize())
  }

  // Each block's payloads lie behind the keys before it.
  ghost predicate PayloadsAt(c: Config, file: seq<Byte>, bs: seq<Block>) {
    forall i :: 0 <= i < |bs| ==> Has(file, c.PayloadOffset(Keys(bs[..i])), bs[i].payloads)
  }

  // The writer after the blocks `bs`, payloads aside.
  ghost predicate Committed(c: Config, h: HashFn, st: Progress, bs: seq<Block>) {
    && st.blockCount == |bs| && st.keyCount == Keys(bs)
    && st.metadataWriteOffset == c.MetadataRegionOffset() + |Metadata(bs)|
    && st.ramIndex + [EntryAfter(bs)] == RAMIndex(bs)
    && st.payloadHashed == BlockHashes(h, bs) && st.metadataHashed == Metadata(bs)
    && Has(st.file, c.MetadataRegionOffset(), Metadata(bs))
  }

  function Started(c: Config, file: seq<Byte>): Progress {
    Progress(file, c.MetadataRegionOffset(), [], [], [], 0, 0)
  }

  lemma StartedCommitted(c: Config, h: HashFn, file: seq<Byte>)
    ensures Committed(c, h, Started(c, file), []) && PayloadsAt(c, file, [])
  {
  }

  lemma CommittedOffset(c: Config, h: HashFn, st: Progress, bs: seq<Block>)
    requires Committed(c, h, st, bs)
    ensures c.MetadataRegionOffset() <= st.metadataWriteOffset && st.keyCount == Keys(bs) && st.blockCount == |bs|
  {
  }

  lemma PrefixOf(bs: seq<Block>, b: Block)
    ensures (bs + [b])[..|bs|] == bs
    ensures Keys(bs + [b]) == Keys(bs) + b.numKeys && Metadata(bs + [b]) == Metadata(bs) + b.metadata
    ensures RAMIndex(bs + [b]) == RAMIndex(bs) + [EntryAfter(bs + [b])]
  {
    assert (bs + [b])[..|bs|] == bs;
  }

  lemma HashesAppend(h: HashFn, bs: seq<Block>, b: Block)
    ensures BlockHashes(h, bs + [b]) == BlockHashes(h, bs) + PutLE(h(b.payloads), 8)
  {
    assert (bs + [b])[..|bs|] == bs;
  }

  lemma {:induction false} KeysMonotone(bs: seq<Block>, i: nat, j: nat)
    requires i <= j <= |bs|
    ensures Keys(bs[..i]) <= Keys(bs[..j])
    decreases j
  {
    if i < j {
      KeysMonotone(bs, i, j - 1);
      assert bs[..j][..j - 1] == bs[..j - 1];
    }
  }

  lemma KeysThrough(bs: seq<Block>, i: nat)
    requires i < |bs|
    ensures Keys(bs[..i + 1]) == Keys(bs[..i]) + bs[i].numKeys <= Keys(bs)
  {
    assert bs[..i + 1][..i] == bs[..i];
    KeysMonotone(bs, i + 1, |bs|);
    assert bs[..|bs|] == bs;
  }

  lemma PayloadOffsets(c: Config, a: nat, b: nat)
    ensures c.PayloadOffset(a + b) == c.PayloadOffset(a) + Offset(b, c.EntrySize())
    ensures a <= b ==> c.PayloadOffset(a) <= c.PayloadOffset(b)
    ensures Offset(0, c.EntrySize()) == 0
  {
    MulMonotone(a, b, c.EntrySize());
    Distribute(a, b, c.EntrySize());
  }

  lemma Distribute(a: nat, b: nat, e: nat)
    ensures Offset(a + b, e) == Offset(a, e) + Offset(b, e) && Offset(0, e) == 0
  {
  }

  // Where block i's payloads end, the next block's begin.
  lemma PayloadStretch(c: Config, bs: seq<Block>, i: nat)
    requires Sized(c, bs) && i < |bs|
    ensures c.PayloadOffset(Keys(bs[..i])) + |bs[i].payloads| == c.PayloadOffset(Keys(bs[..i + 1])) <= c.PayloadOffset(Keys(bs))
  {
    hide Keys, Config.PayloadOffset, Offset;
    KeysThrough(bs, i);
    PayloadOffsets(c, Keys(bs[..i]), bs[i].numKeys);
    PayloadOffsets(c, Keys(bs[..i + 1]), Keys(bs));
  }

  // ---------- Keeping what is committed ----------

  /** The writer's share of a block: its hash folded and its metadata written. */
  lemma EmitCommits(c: Config, h: HashFn, st: Progress, bs: seq<Block>, b: Block)
    requires Committed(c, h, st, bs)
    ensures c.MetadataRegionOffset() <= Fold(st, h(b.payloads)).metadataWriteOffset
    ensures var (after, ok) := WriteMetadata(c, Fold(st, h(b.payloads)), b.metadata, b.numKeys, None);
            ok && Committed(c, h, after, bs + [b])
  {
    var folded := Fold(st, h(b.payloads));
    var (after, ok) := WriteMetadata(c, folded, b.metadata, b.numKeys, None);
    PrefixOf(bs, b);
    HashesAppend(h, bs, b);
    hide Keys, Metadata, RAMIndex, BlockHashes, Has, WriteAt, Config.MetadataRegionOffset, PutLE;
    var at := c.MetadataRegionOffset();
    if |b.metadata| > 0 {
      WriteHas(st.file, st.metadataWriteOffset, b.metadata);
      WriteApart(st.file, st.metadataWriteOffset, b.metadata, at, Metadata(bs));
      HasJoin(after.file, at, Metadata(bs), b.metadata);
    } else {
      assert Metadata(bs) + b.metadata == Metadata(bs);
    }
  }

  // Writing metadata disturbs no payloads.
  lemma PayloadsStay(c: Config, before: seq<Byte>, bs: seq<Block>, at: nat, bytes: seq<Byte>)
    requires PayloadsAt(c, before, bs) && Sized(c, bs) && Keys(bs) <= c.totalKeys && c.MetadataRegionOffset() <= at
    ensures PayloadsAt(c, WriteAt(before, at, bytes), bs)
  {
    forall i | 0 <= i < |bs| ensures Has(WriteAt(before, at, bytes), c.PayloadOffset(Keys(bs[..i])), bs[i].payloads) {
      PayloadStretch(c, bs, i);
      PayloadOffsets(c, Keys(bs), c.totalKeys);
      hide Has, WriteAt, Keys, Config.PayloadOffset, Sized;
      WriteApart(before, at, bytes, c.PayloadOffset(Keys(bs[..i])), bs[i].payloads);
    }
  }

  // Writing a block's payloads in their place disturbs no other block's.
  lemma PayloadsExtend(c: Config, before: seq<Byte>, bs: seq<Block>, b: Block)
    requires PayloadsAt(c, before, bs) && Sized(c, bs + [b])
    ensures PayloadsAt(c, WriteAt(before, c.PayloadOffset(Keys(bs)), b.payloads), bs + [b])
  {
    var all := bs + [b];
    assert all[..|bs|] == bs;
    var at := c.PayloadOffset(Keys(bs));
    forall i | 0 <= i < |all| ensures Has(WriteAt(before, at, b.payloads), c.PayloadOffset(Keys(all[..i])), all[i].payloads) {
      if i == |bs| {
        WriteHas(before, at, b.payloads);
      } else {
        assert all[..i] == bs[..i] && Sized(c, bs);
        PayloadStretch(c, bs, i);
        hide Has, WriteAt, Keys, Config.PayloadOffset, Sized;
        WriteApart(before, at, b.payloads, c.PayloadOffset(Keys(bs[..i])), bs[i].payloads);
      }
    }
  }

  // The payload region lies before the metadata region.
  lemma MetadataStays(c: Config, h: HashFn, st: Progress, bs: seq<Block>, at: nat, bytes: seq<Byte>)
    requires Committed(c, h, st, bs) && at + |bytes| <= c.MetadataRegionOffset()
    ensures Committed(c, h, st.(file := WriteAt(st.file, at, bytes)), bs)
  {
    hide Has, WriteAt, Config.MetadataRegionOffset;
    WriteApart(st.file, at, bytes, c.MetadataRegionOffset(), Metadata(bs));
  }

  lemma PayloadsFront(c: Config, file: seq<Byte>, bs: seq<Block>)
    requires PayloadsAt(c, file, bs) && Sized(c, bs) && |bs| > 0
    ensures var front, b := bs[..|bs| - 1], bs[|bs| - 1];
            && PayloadsAt(c, file, front) && Sized(c, front)
            && Has(file, c.PayloadOffset(Keys(front)), b.payloads) && |b.payloads| == Offset(b.numKeys, c.EntrySize())
            && Payloads(bs) == Payloads(front) + b.payloads && Keys(bs) == Keys(front) + b.numKeys
  {
    var front := bs[..|bs| - 1];
    assert forall i :: 0 <= i < |front| ==> front[..i] == bs[..i] && front[i] == bs[i];
  }

  lemma PayloadOffsetIs(c: Config, keysBefore: nat)
    ensures c.PayloadOffset(keysBefore) == c.PayloadRegionOffset() + Offset(keysBefore, c.EntrySize())
  {
  }

  lemma {:induction false} PayloadsJoin(c: Config, file: seq<Byte>, bs: seq<Block>)
    requires PayloadsAt(c, file, bs) && Sized(c, bs)
    ensures Has(file, c.PayloadRegionOffset(), Payloads(bs)) && |Payloads(bs)| == Offset(Keys(bs), c.EntrySize())
  {
    if |bs| > 0 {
      var front, b := bs[..|bs| - 1], bs[|bs| - 1];
      PayloadsFront(c, file, bs);
      hide *;
      PayloadsJoin(c, file, front);
      PayloadOffsetIs(c, Keys(front));
      Distribute(Keys(front), b.numKeys, c.EntrySize());
      HasJoin(file, c.PayloadRegionOffset(), Payloads(front), b.payloads);
    }
  }

  // A serial commit is the parallel writer's, followed by the payload write.
  lemma CommitIsEmitThenStore(c: Config, h: HashFn, st: Progress, b: Block)
    requires c.MetadataRegionOffset() <= st.metadataWriteOffset
    requires |b.payloads| == Offset(b.numKeys, c.EntrySize())
    ensures var (emitted, _) := WriteMetadata(c, Fold(st, h(b.payloads)), b.metadata, b.numKeys, None);
            CommitBlock(c, h, st, b, None, None)
            == (emitted.(file := WriteAt(emitted.file, c.PayloadOffset(st.keyCount), b.payloads)), true)
  {
    NoEntries(c, b);
    hide PutLE, Config.MetadataRegionOffset, Config.PayloadOffset, Offset;
  }

  lemma SizedLast(c: Config, bs: seq<Block>, b: Block)
    requires Sized(c, bs + [b])
    ensures Sized(c, bs) && |b.payloads| == Offset(b.numKeys, c.EntrySize())
  {
    assert (bs + [b])[|bs|] == b;
    assert forall i :: 0 <= i < |bs| ==> (bs + [b])[i] == bs[i];
  }

  lemma EmitFile(c: Config, h: HashFn, st: Progress, b: Block)
    requires c.MetadataRegionOffset() <= st.metadataWriteOffset
    ensures var (emitted, _) := WriteMetadata(c, Fold(st, h(b.payloads)), b.metadata, b.numKeys, None);
            emitted.file == WriteAt(st.file, st.metadataWriteOffset, b.metadata)
  {
  }

  /** A serial commit: metadata and payloads of the next block. */
  lemma CommitCommits(c: Config, h: HashFn, st: Progress, bs: seq<Block>, b: Block)
    requires Committed(c, h, st, bs) && PayloadsAt(c, st.file, bs)
    requires Sized(c, bs + [b]) && Keys(bs) + b.numKeys <= c.totalKeys
    ensures c.MetadataRegionOffset() <= st.metadataWriteOffset
    ensures var (after, ok) := CommitBlock(c, h, st, b, None, None);
            ok && Committed(c, h, after, bs + [b]) && PayloadsAt(c, after.file, bs + [b])
  {
    hide *;
    CommittedOffset(c, h, st, bs);
    EmitCommits(c, h, st, bs, b);
    EmitFile(c, h, st, b);
    SizedLast(c, bs, b);
    CommitIsEmitThenStore(c, h, st, b);
    var (emitted, _) := WriteMetadata(c, Fold(st, h(b.payloads)), b.metadata, b.numKeys, None);
    PayloadsStay(c, st.file, bs, st.metadataWriteOffset, b.metadata);
    PayloadsExtend(c, emitted.file, bs, b);
    MetadataStart(c, Keys(bs), b);
    MetadataStays(c, h, emitted, bs + [b], c.PayloadOffset(Keys(bs)), b.payloads);
  }

  lemma MetadataStart(c: Config, keysBefore: nat, b: Block)
    requires |b.payloads| == Offset(b.numKeys, c.EntrySize()) && keysBefore + b.numKeys <= c.totalKeys
    ensures c.PayloadOffset(keysBefore) + |b.payloads| <= c.MetadataRegionOffset()
  {
    PayloadOffsets(c, keysBefore, b.numKeys);
    PayloadOffsets(c, keysBefore + b.numKeys, c.totalKeys);
  }

  // Without entries there is nothing to write.
  lemma NoEntries(c: Config, b: Block)
    requires |b.payloads| == Offset(b.numKeys, c.EntrySize())
    ensures c.EntrySize() == 0 || b.numKeys == 0 ==> b.payloads == []
  {
  }

  // ---------- The finished file ----------

  function Section(data: seq<Byte>): (r: seq<Byte>)
    ensures |r| == 4 + |data|
  {
    PutLE(|data|, 4) + data
  }

  function HeaderOf(c: Config, totalKeys: nat, numBlocks: nat): (r: Header)
    requires c.Valid()
    ensures r.fingerprintSize < 256
  {
    Header(totalKeys, numBlocks, c.payloadSize, c.fingerprintSize, c.seed, c.algorithm)
  }

  // What comes before the payload region.
  function Front(c: Config, totalKeys: nat, numBlocks: nat, ramIndex: seq<RAMEntry>): (r: seq<Byte>)
    requires c.Valid()
    ensures |r| == c.RAMIndexOffset() + Offset(|ramIndex|, RAM_ENTRY_SIZE)
  {
    HeaderBytes(HeaderOf(c, totalKeys, numBlocks)) + Section(c.userMetadata) + Section(c.algoConfig) + RAMBytes(ramIndex)
  }

  function FooterOf(h: HashFn, bs: seq<Block>): Footer {
    Footer(h(BlockHashes(h, bs)), h(Metadata(bs)))
  }

  // An index file of the blocks `bs` with some footer.
  function IndexWith(c: Config, bs: seq<Block>, footer: Footer): seq<Byte>
    requires c.Valid()
  {
    Front(c, Keys(bs), |bs|, RAMIndex(bs)) + Payloads(bs) + Metadata(bs) + FooterBytes(footer)
  }

  /** The index of the blocks `bs`. */
  function IndexBytes(c: Config, h: HashFn, bs: seq<Block>): seq<Byte>
    requires c.Valid()
  {
    IndexWith(c, bs, FooterOf(h, bs))
  }

  // The blocks are all there.
  ghost predicate Complete(c: Config, bs: seq<Block>) {
    |bs| == c.numBlocks && Keys(bs) == c.totalKeys && Sized(c, bs)
  }

  function Sentinel(c: Config, st: Progress): RAMEntry
    requires c.MetadataRegionOffset() <= st.metadataWriteOffset
  {
    RAMEntry(st.keyCount, st.metadataWriteOffset - c.MetadataRegionOffset())
  }

  function WriteFront(c: Config, st: Progress): seq<Byte>
    requires c.Valid() && c.MetadataRegionOffset() <= st.metadataWriteOffset
  {
    var withHeader := WriteAt(st.file, 0, HeaderBytes(HeaderOf(c, st.keyCount, st.blockCount)));
    var withMetadata := WriteAt(withHeader, HEADER_SIZE, Section(c.userMetadata));
    var withConfig := WriteAt(withMetadata, c.AlgoConfigOffset(), Section(c.algoConfig));
    WriteAt(withConfig, c.RAMIndexOffset(), RAMBytes(st.ramIndex + [Sentinel(c, st)]))
  }

  function Finalized(c: Config, h: HashFn, st: Progress): seq<Byte>
    requires c.Valid() && c.MetadataRegionOffset() <= st.metadataWriteOffset
  {
    var footer := FooterBytes(Footer(h(st.payloadHashed), h(st.metadataHashed)));
    WriteAt(WriteFront(c, st), st.metadataWriteOffset, footer)[..st.metadataWriteOffset + FOOTER_SIZE]
  }

  lemma WriteNext(f: seq<Byte>, prefix: seq<Byte>, bytes: seq<Byte>, bodyAt: nat, body: seq<Byte>)
    requires Has(f, 0, prefix) && Has(f, bodyAt, body) && |prefix| + |bytes| <= bodyAt
    ensures Has(WriteAt(f, |prefix|, bytes), 0, prefix + bytes)
    ensures Has(WriteAt(f, |prefix|, bytes), bodyAt, body)
  {
    WriteHas(f, |prefix|, bytes);
    WriteApart(f, |prefix|, bytes, 0, prefix);
    WriteApart(f, |prefix|, bytes, bodyAt, body);
    hide Has, WriteAt;
    HasJoin(WriteAt(f, |prefix|, bytes), 0, prefix, bytes);
  }

  lemma FrontSizes(c: Config)
    requires c.Valid()
    ensures HEADER_SIZE + |Section(c.userMetadata)| == c.AlgoConfigOffset()
    ensures c.AlgoConfigOffset() + |Section(c.algoConfig)| == c.RAMIndexOffset()
    ensures c.RAMIndexOffset() + Offset(c.numBlocks + 1, RAM_ENTRY_SIZE) == c.PayloadRegionOffset()
  {
  }

  lemma FrontWritten(c: Config, st: Progress, body: seq<Byte>)
    requires c.Valid() && c.MetadataRegionOffset() <= st.metadataWriteOffset
    requires |st.ramIndex| == c.numBlocks && Has(st.file, c.PayloadRegionOffset(), body)
    ensures Has(WriteFront(c, st), 0, Front(c, st.keyCount, st.blockCount, st.ramIndex + [Sentinel(c, st)]))
    ensures Has(WriteFront(c, st), c.PayloadRegionOffset(), body)
  {
    var header := HeaderBytes(HeaderOf(c, st.keyCount, st.blockCount));
    var ram := RAMBytes(st.ramIndex + [Sentinel(c, st)]);
    var at := c.PayloadRegionOffset();
    FrontSizes(c);
    assert Has(st.file, 0, []);
    hide Has, WriteAt, HeaderBytes, Section, RAMBytes, Config.AlgoConfigOffset, Config.RAMIndexOffset, Config.PayloadRegionOffset,
      Config.MetadataRegionOffset, Sentinel, Offset, HeaderOf;
    WriteNext(st.file, [], header, at, body);
    var f := WriteAt(st.file, 0, header);
    assert [] + header == header;
    WriteNext(f, header, Section(c.userMetadata), at, body);
    f := WriteAt(f, HEADER_SIZE, Section(c.userMetadata));
    WriteNext(f, header + Section(c.userMetadata), Section(c.algoConfig), at, body);
    f := WriteAt(f, c.AlgoConfigOffset(), Section(c.algoConfig));
    WriteNext(f, header + Section(c.userMetadata) + Section(c.algoConfig), ram, at, body);
  }

  /** Finalizing after all blocks gives the index of the blocks, whatever the file held
      before. */
  lemma FinalizedIsIndex(c: Config, h: HashFn, st: Progress, bs: seq<Block>)
    requires c.Valid() && Committed(c, h, st, bs) && PayloadsAt(c, st.file, bs) && Complete(c, bs)
    ensures c.MetadataRegionOffset() <= st.metadataWriteOffset
    ensures Finalized(c, h, st) == IndexBytes(c, h, bs)
  {
    CommittedOffset(c, h, st, bs);
    PayloadsJoin(c, st.file, bs);
    var front := Front(c, Keys(bs), |bs|, RAMIndex(bs));
    var body := Payloads(bs) + Metadata(bs);
    var footer := FooterBytes(Footer(h(BlockHashes(h, bs)), h(Metadata(bs))));
    assert st.ramIndex + [Sentinel(c, st)] == RAMIndex(bs);
    assert |RAMIndex(bs)| == c.numBlocks + 1;
    BodyHeld(c, h, st, bs);
    assert |front| == c.PayloadRegionOffset();
    assert |front| + |body| == st.metadataWriteOffset;
    hide *;
    FrontWritten(c, st, body);
    var f := WriteFront(c, st);
    HasJoin(f, 0, front, body);
    Footered(f, front + body, footer);
    IndexBytesIs(c, h, bs);
    FinalizedIs(c, h, st, footer);
  }

  lemma FinalizedIs(c: Config, h: HashFn, st: Progress, footer: seq<Byte>)
    requires c.Valid() && c.MetadataRegionOffset() <= st.metadataWriteOffset
    requires footer == FooterBytes(Footer(h(st.payloadHashed), h(st.metadataHashed)))
    ensures Finalized(c, h, st) == WriteAt(WriteFront(c, st), st.metadataWriteOffset, footer)[..st.metadataWriteOffset + FOOTER_SIZE]
  {
  }

  lemma IndexBytesIs(c: Config, h: HashFn, bs: seq<Block>)
    requires c.Valid()
    ensures IndexBytes(c, h, bs) == Front(c, Keys(bs), |bs|, RAMIndex(bs)) + (Payloads(bs) + Metadata(bs))
                                    + FooterBytes(Footer(h(BlockHashes(h, bs)), h(Metadata(bs))))
  {
    hide Front, Payloads, Metadata, FooterBytes, RAMIndex, Keys;
  }

  lemma Footered(f: seq<Byte>, prefix: seq<Byte>, footer: seq<Byte>)
    requires Has(f, 0, prefix)
    ensures |prefix + footer| <= |WriteAt(f, |prefix|, footer)|
    ensures WriteAt(f, |prefix|, footer)[..|prefix + footer|] == prefix + footer
  {
    WriteHas(f, |prefix|, footer);
    WriteApart(f, |prefix|, footer, 0, prefix);
    HasJoin(WriteAt(f, |prefix|, footer), 0, prefix, footer);
    HasWhole(WriteAt(f, |prefix|, footer), prefix + footer);
  }

  lemma BodyHeld(c: Config, h: HashFn, st: Progress, bs: seq<Block>)
    requires Committed(c, h, st, bs) && Complete(c, bs)
    requires Has(st.file, c.PayloadRegionOffset(), Payloads(bs)) && |Payloads(bs)| == Offset(Keys(bs), c.EntrySize())
    ensures Has(st.file, c.PayloadRegionOffset(), Payloads(bs) + Metadata(bs))
    ensures c.PayloadRegionOffset() + |Payloads(bs)| + |Metadata(bs)| == st.metadataWriteOffset
  {
    PayloadOffsetIs(c, c.totalKeys);
    hide Has;
    HasJoin(st.file, c.PayloadRegionOffset(), Payloads(bs), Metadata(bs));
  }

  // ---------- The writer ----------

  // A worker's write of its block's payloads, `offset` bytes into the payload region.
  function WritePayloads(c: Config, file: seq<Byte>, data: seq<Byte>, offset: nat, fault: Fault): (seq<Byte>, bool) {
    if |data| == 0 then (file, true)
    else if c.PayloadRegionOffset() + offset + |data| > c.MetadataRegionOffset() then (file, false)
    else match fault
      case Some(torn) => (WriteAt(file, c.PayloadRegionOffset() + offset, torn), false)
      case None => (WriteAt(file, c.PayloadRegionOffset() + offset, data), true)
  }

  class Writer {
    const c: Config
    const h: HashFn
    var file: seq<Byte>
    var metadataWriteOffset: nat
    var ramIndex: seq<RAMEntry>
    var payloadHasher: seq<Byte>
    var metadataHasher: seq<Byte>
    var keyCount: nat
    var blockCount: nat

    constructor (c: Config, h: HashFn, file: seq<Byte>)
      ensures this.c == c && this.h == h && State() == Started(c, file) && Valid()
    {
      this.c, this.h, this.file := c, h, file;
      metadataWriteOffset, ramIndex := c.MetadataRegionOffset(), [];
      payloadHasher, metadataHasher, keyCount, blockCount := [], [], 0, 0;
    }

    ghost predicate Valid()
      reads this
    {
      c.MetadataRegionOffset() <= metadataWriteOffset
    }

    function State(): Progress
      reads this
    {
      Progress(file, metadataWriteOffset, ramIndex, payloadHasher, metadataHasher, keyCount, blockCount)
    }

    method WritePayloadsDirect(data: seq<Byte>, offset: nat, fault: Fault) returns (ok: bool)
      modifies `file
      ensures (file, ok) == WritePayloads(c, old(file), data, offset, fault)
    {
      hide Config.PayloadRegionOffset, Config.MetadataRegionOffset, WriteAt;
      if |data| == 0 {
        return true;
      }
      var absoluteOffset := c.PayloadRegionOffset() + offset;
      if absoluteOffset + |data| > c.MetadataRegionOffset() {
        return false;
      }
      ok := WriteFile(absoluteOffset, data, fault);
    }

    method WriteFile(at: nat, data: seq<Byte>, fault: Fault) returns (ok: bool)
      modifies `file
      ensures ok == fault.None?
      ensures file == WriteAt(old(file), at, if fault.None? then data else fault.value)
    {
      file := WriteAt(file, at, if fault.None? then data else fault.value);
      ok := fault.None?;
    }

    method FoldPayloadHash(hash: UInt64)
      modifies `payloadHasher
      ensures State() == Fold(old(State()), hash)
    {
      payloadHasher := payloadHasher + PutLE(hash, 8);
    }

    method RecordAndWriteMetadata(metadata: seq<Byte>, fault: Fault) returns (ok: bool)
      requires Valid()
      modifies `ramIndex, `file, `metadataHasher, `metadataWriteOffset
      ensures Valid() && (State(), ok) == RecordMetadata(c, old(State()), metadata, fault)
    {
      hide Config.MetadataRegionOffset, WriteAt;
      ramIndex := ramIndex + [RAMEntry(keyCount, metadataWriteOffset - c.MetadataRegionOffset())];
      if |metadata| > 0 {
        ok := WriteFile(metadataWriteOffset, metadata, fault);
        if !ok {
          return;
        }
        metadataHasher := metadataHasher + metadata;
        metadataWriteOffset := metadataWriteOffset + |metadata|;
      }
      ok := true;
    }

    method WriteBlockMetadata(metadata: seq<Byte>, numKeys: nat, fault: Fault) returns (ok: bool)
      requires Valid()
      modifies this
      ensures Valid() && (State(), ok) == WriteMetadata(c, old(State()), metadata, numKeys, fault)
    {
      hide Config.MetadataRegionOffset;
      ok := RecordAndWriteMetadata(metadata, fault);
      if !ok {
        return;
      }
      keyCount, blockCount := keyCount + numKeys, blockCount + 1;
    }

    method CommitBlockWithData(b: Block, metadataFault: Fault, payloadFault: Fault) returns (ok: bool)
      requires Valid()
      modifies this
      ensures Valid() && (State(), ok) == CommitBlock(c, h, old(State()), b, metadataFault, payloadFault)
    {
      hide Config.MetadataRegionOffset, Config.PayloadOffset, WriteAt;
      ok := RecordAndWriteMetadata(b.metadata, metadataFault);
      if !ok {
        return;
      }
      if c.EntrySize() > 0 && b.numKeys > 0 {
        ok := WriteFile(c.PayloadOffset(keyCount), b.payloads, payloadFault);
        if !ok {
          return;
        }
        FoldPayloadHash(h(b.payloads));
      } else {
        FoldPayloadHash(h([]));
      }
      keyCount, blockCount := keyCount + b.numKeys, blockCount + 1;
    }

    method EncodeRAMIndex() returns (buf: array<Byte>)
      ensures fresh(buf) && buf[..] == RAMBytes(ramIndex)
    {
      hide Stored;
      buf := new Byte[|ramIndex| * RAM_ENTRY_SIZE];
      var i := 0;
      while i < |ramIndex|
        invariant i <= |ramIndex| && buf.Length == |ramIndex| * RAM_ENTRY_SIZE
        invariant buf[..i * RAM_ENTRY_SIZE] == RAMBytes(ramIndex[..i])
      {
        ghost var before := buf[..];
        EncodeRAMIndexEntryTo(ramIndex[i], buf, i * RAM_ENTRY_SIZE);
        StoredAppends(before, buf[..], 0, i * RAM_ENTRY_SIZE, RAMBytes(ramIndex[..i]), RAMEntryBytes(ramIndex[i]));
        assert ramIndex[..i + 1][..i] == ramIndex[..i];
        i := i + 1;
      }
      assert ramIndex[..i] == ramIndex && buf[..] == buf[..i * RAM_ENTRY_SIZE];
    }

    /** Writes header, variable sections, RAM index and footer, and truncates. `calls` says
        which of the system calls succeed. */
    method Finalize(calls: seq<bool>) returns (ok: bool)
      requires Valid() && c.Valid() && |calls| == 8
      modifies this
      ensures ok <==> old(metadataWriteOffset) + FOOTER_SIZE <= c.estimatedSize && forall i :: 0 <= i < 8 ==> calls[i]
      ensures ok ==> file == Finalized(c, h, old(State()))
    {
      hide Config.Valid, Config.MetadataRegionOffset, WriteAt, RAMBytes, HeaderBytes, FooterBytes, Config.RAMIndexOffset;
      var actualSize := metadataWriteOffset + FOOTER_SIZE;
      if actualSize > c.estimatedSize {
        return false;
      }
      ghost var st := State();
      ramIndex := ramIndex + [RAMEntry(keyCount, metadataWriteOffset - c.MetadataRegionOffset())];
      var payloadRegionHash, metadataRegionHash := h(payloadHasher), h(metadataHasher);
      var header := HeaderOf(c, keyCount, blockCount);
      if !calls[0] {
        return false;
      }
      file := WriteAt(file, 0, HeaderBytes(header));
      if !calls[1] {
        return false;
      }
      file := WriteAt(file, HEADER_SIZE, Section(c.userMetadata));
      if !calls[2] {
        return false;
      }
      file := WriteAt(file, c.AlgoConfigOffset(), Section(c.algoConfig));
      var buf := EncodeRAMIndex();
      if !calls[3] {
        return false;
      }
      file := WriteAt(file, c.RAMIndexOffset(), buf[..]);
      assert file == WriteFront(c, st);
      if !calls[4] {
        return false;
      }
      file := WriteAt(file, metadataWriteOffset, FooterBytes(Footer(payloadRegionHash, metadataRegionHash)));
      if !calls[5] {
        return false;
      }
      file := file[..actualSize];
      ok := calls[6] && calls[7];
    }
  }
}
