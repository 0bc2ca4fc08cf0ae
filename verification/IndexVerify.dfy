/** Verifying an index: the payload region as a hash of block hashes, the metadata region as
    one hash. */
module IndexVerify {
  import opened Basics
  import opened LittleEndian
  import opened Encoding
  import opened Files
  import opened IndexFormat
  import opened IndexWriter
  import opened IndexReader
  import opened IndexLookup

  // Block b's payload bytes according to the RAM index.
  function BlockPayloads(idx: Index, b: nat): Result<seq<Byte>, IndexError>
    requires idx.Valid() && b < idx.header.numBlocks
  {
    var startKey, endKey := idx.RAMEntryAt(b).keysBefore, idx.RAMEntryAt(b + 1).keysBefore;
    if startKey > endKey then Err(CorruptedIndex)
    else if endKey > startKey && idx.header.EntrySize() > 0 then
      var payloadStart := idx.payloadRegionOffset + Offset(startKey, idx.header.EntrySize());
      var payloadEnd := idx.payloadRegionOffset + Offset(endKey, idx.header.EntrySize());
      MulMonotone(startKey, endKey, idx.header.EntrySize());
      if payloadEnd > |idx.data| then Err(CorruptedIndex) else Ok(idx.data[payloadStart..payloadEnd])
    else Ok([])
  }

  // What the payload hasher is fed for the first n blocks.
  function Folded(idx: Index, h: HashFn, n: nat): Result<seq<Byte>, IndexError>
    requires idx.Valid() && n <= idx.header.numBlocks
  {
    if n == 0 then Ok([])
    else match Folded(idx, h, n - 1)
      case Err(e) => Err(e)
      case Ok(stream) => match BlockPayloads(idx, n - 1)
        case Err(e) => Err(e)
        case Ok(payloads) => Ok(stream + PutLE(h(payloads), 8))
  }

  lemma {:induction false} FoldedErrs(idx: Index, h: HashFn, m: nat, n: nat)
    requires idx.Valid() && m <= n <= idx.header.numBlocks
    requires Folded(idx, h, m).Err?
    ensures Folded(idx, h, n) == Folded(idx, h, m)
  {
    if m < n {
      FoldedErrs(idx, h, m, n - 1);
    }
  }

  // The metadata region up to the footer.
  function CheckMetadata(idx: Index, h: HashFn, footer: Footer): Option<IndexError> {
    if |idx.data| < idx.metadataRegionOffset + FOOTER_SIZE then Some(CorruptedIndex)
    else
      var region := idx.data[idx.metadataRegionOffset..|idx.data| - FOOTER_SIZE];
      if |region| > 0 && h(region) != footer.metadataRegionHash then Some(ChecksumFailed) else None
  }

  // What verification concludes.
  function Verdict(idx: Index, h: HashFn): Option<IndexError>
    requires idx.Valid()
  {
    match DecodeFooter(idx.data[|idx.data| - FOOTER_SIZE..])
    case Err(e) => Some(e)
    case Ok(footer) =>
      match Folded(idx, h, idx.header.numBlocks)
      case Err(e) => Some(e)
      case Ok(stream) => if h(stream) != footer.payloadRegionHash then Some(ChecksumFailed) else CheckMetadata(idx, h, footer)
  }

  method Verify(idx: Index, h: HashFn) returns (err: Option<IndexError>)
    requires idx.Valid()
    ensures err == Verdict(idx, h)
  {
    hide Index.Valid, DecodeFooter, BlockPayloads, CheckMetadata;
    var decoded := DecodeTail(idx);
    if decoded.Err? {
      return Some(decoded.error);
    }
    var hashed: seq<Byte> := [];
    for b := 0 to idx.header.numBlocks
      invariant Folded(idx, h, b) == Ok(hashed)
    {
      var payloads := BlockPayloads(idx, b);
      if payloads.Err? {
        FoldedErrs(idx, h, b + 1, idx.header.numBlocks);
        return Some(payloads.error);
      }
      hashed := hashed + PutLE(h(payloads.value), 8);
    }
    if h(hashed) != decoded.value.payloadRegionHash {
      return Some(ChecksumFailed);
    }
    err := CheckMetadata(idx, h, decoded.value);
  }

  function DecodeTail(idx: Index): Result<Footer, IndexError>
    requires idx.Valid()
  {
    DecodeFooter(idx.data[|idx.data| - FOOTER_SIZE..])
  }

  // ---------- Files with the layout of an index ----------

  lemma BlockPayloadsRead(c: Config, f: Footer, bs: seq<Block>, b: nat)
    requires c.Valid() && Complete(c, bs) && |Metadata(bs)| < Pow256(5) && b < |bs|
    ensures Opened(c, f, bs).Valid() && b < Opened(c, f, bs).header.numBlocks
    ensures BlockPayloads(Opened(c, f, bs), b) == Ok(bs[b].payloads)
  {
    hide *;
    OpenedValid(c, f, bs);
    OpenedFields(c, f, bs);
    EntryRead(c, f, bs, b);
    EntryRead(c, f, bs, b + 1);
    EntryAfterIs(bs[..b]);
    EntryAfterIs(bs[..b + 1]);
    KeysThrough(bs, b);
    PayloadsAtOffset(c, f, bs, b);
    SizedAt(c, bs, b);
    PayloadOffsetIs(c, Keys(bs[..b]));
    Distribute(Keys(bs[..b]), bs[b].numKeys, c.EntrySize());
    BlockPayloadsIs(Opened(c, f, bs), b, Keys(bs[..b]), bs[b].numKeys, bs[b].payloads);
  }

  lemma SizedAt(c: Config, bs: seq<Block>, b: nat)
    requires Complete(c, bs) && b < |bs|
    ensures |bs[b].payloads| == Offset(bs[b].numKeys, c.EntrySize())
  {
  }

  lemma BlockPayloadsIs(idx: Index, b: nat, before: nat, n: nat, payloads: seq<Byte>)
    requires idx.Valid() && b < idx.header.numBlocks
    requires idx.RAMEntryAt(b).keysBefore == before && idx.RAMEntryAt(b + 1).keysBefore == before + n
    requires |payloads| == Offset(n, idx.header.EntrySize())
    requires Offset(before + n, idx.header.EntrySize()) == Offset(before, idx.header.EntrySize()) + |payloads|
    requires var from := idx.payloadRegionOffset + Offset(before, idx.header.EntrySize());
             from + |payloads| <= |idx.data| && idx.data[from..from + |payloads|] == payloads
    ensures BlockPayloads(idx, b) == Ok(payloads)
  {
    assert n == 0 || idx.header.EntrySize() == 0 ==> payloads == [];
    hide Index.Valid, Index.RAMEntryAt, Offset;
  }

  lemma {:induction false} FoldedIs(c: Config, f: Footer, bs: seq<Block>, h: HashFn, n: nat)
    requires c.Valid() && Complete(c, bs) && |Metadata(bs)| < Pow256(5) && n <= |bs|
    ensures Opened(c, f, bs).Valid() && n <= Opened(c, f, bs).header.numBlocks
    ensures Folded(Opened(c, f, bs), h, n) == Ok(BlockHashes(h, bs[..n]))
  {
    hide *;
    OpenedValid(c, f, bs);
    OpenedFields(c, f, bs);
    CompleteBlocks(c, bs);
    if n > 0 {
      FoldedIs(c, f, bs, h, n - 1);
      BlockPayloadsRead(c, f, bs, n - 1);
      assert bs[..n] == bs[..n - 1] + [bs[n - 1]];
      HashesAppend(h, bs[..n - 1], bs[n - 1]);
      FoldedNext(Opened(c, f, bs), h, n, BlockHashes(h, bs[..n - 1]), bs[n - 1].payloads);
    } else {
      FoldedNone(Opened(c, f, bs), h, bs);
    }
  }

  lemma FoldedNext(idx: Index, h: HashFn, n: nat, stream: seq<Byte>, payloads: seq<Byte>)
    requires idx.Valid() && 0 < n <= idx.header.numBlocks
    requires Folded(idx, h, n - 1) == Ok(stream) && BlockPayloads(idx, n - 1) == Ok(payloads)
    ensures Folded(idx, h, n) == Ok(stream + PutLE(h(payloads), 8))
  {
    hide BlockPayloads, PutLE, Index.Valid;
  }

  lemma FoldedNone(idx: Index, h: HashFn, bs: seq<Block>)
    requires idx.Valid()
    ensures Folded(idx, h, 0) == Ok(BlockHashes(h, bs[..0]))
  {
  }

  lemma TailRead(c: Config, f: Footer, bs: seq<Block>)
    requires c.Valid() && Complete(c, bs) && f.payloadRegionHash < Pow256(8) && f.metadataRegionHash < Pow256(8)
    ensures Opened(c, f, bs).Valid() && DecodeTail(Opened(c, f, bs)) == Ok(f)
    ensures var idx := Opened(c, f, bs);
            idx.metadataRegionOffset + |Metadata(bs)| + FOOTER_SIZE == |idx.data|
            && idx.data[idx.metadataRegionOffset..|idx.data| - FOOTER_SIZE] == Metadata(bs)
  {
    hide *;
    OpenedValid(c, f, bs);
    OpenedFields(c, f, bs);
    Parts(c, f, bs);
    FooterRoundTrip(f);
    HeldSlice(IndexWith(c, bs, f), c.MetadataRegionOffset(), Metadata(bs));
    HeldSlice(IndexWith(c, bs, f), c.MetadataRegionOffset() + |Metadata(bs)|, FooterBytes(f));
    FooterSize(f);
    DecodeTailIs(Opened(c, f, bs), FooterBytes(f));
  }

  lemma FooterSize(f: Footer)
    ensures |FooterBytes(f)| == FOOTER_SIZE
  {
  }

  lemma HeldSlice(data: seq<Byte>, at: nat, bytes: seq<Byte>)
    requires Has(data, at, bytes) && at + |bytes| <= |data|
    ensures data[at..at + |bytes|] == bytes
  {
  }

  lemma DecodeTailIs(idx: Index, footer: seq<Byte>)
    requires idx.Valid() && |footer| == FOOTER_SIZE && idx.data[|idx.data| - FOOTER_SIZE..|idx.data|] == footer
    ensures DecodeTail(idx) == DecodeFooter(footer)
  {
    assert idx.data[|idx.data| - FOOTER_SIZE..] == footer;
    hide DecodeFooter;
  }

  lemma VerdictIs(idx: Index, h: HashFn, f: Footer, hashes: seq<Byte>, metadata: seq<Byte>)
    requires idx.Valid() && DecodeTail(idx) == Ok(f) && Folded(idx, h, idx.header.numBlocks) == Ok(hashes)
    requires idx.metadataRegionOffset + |metadata| + FOOTER_SIZE == |idx.data|
    requires idx.data[idx.metadataRegionOffset..|idx.data| - FOOTER_SIZE] == metadata
    ensures Verdict(idx, h) == None <==> h(hashes) == f.payloadRegionHash && (|metadata| > 0 ==> h(metadata) == f.metadataRegionHash)
  {
    hide DecodeFooter, Folded, Index.Valid;
  }

  /** On a file with the layout of an index, whatever the footer says: it is accepted exactly
      when the footer holds the hash of the block hashes and, unless the metadata region is
      empty, its hash. */
  lemma VerifyExact(c: Config, f: Footer, bs: seq<Block>, h: HashFn)
    requires c.Valid() && Complete(c, bs) && |Metadata(bs)| < Pow256(5)
    requires f.payloadRegionHash < Pow256(8) && f.metadataRegionHash < Pow256(8)
    ensures Opened(c, f, bs).Valid()
    ensures Verdict(Opened(c, f, bs), h) == None
            <==> f.payloadRegionHash == h(BlockHashes(h, bs)) && (Metadata(bs) != [] ==> f.metadataRegionHash == h(Metadata(bs)))
  {
    hide *;
    OpenedFields(c, f, bs);
    CompleteBlocks(c, bs);
    FoldedIs(c, f, bs, h, |bs|);
    assert bs[..|bs|] == bs;
    TailRead(c, f, bs);
    VerdictIs(Opened(c, f, bs), h, f, BlockHashes(h, bs), Metadata(bs));
  }

  /** A finished index is accepted. */
  lemma VerifyAccepts(c: Config, bs: seq<Block>, h: HashFn)
    requires c.Valid() && Complete(c, bs) && |Metadata(bs)| < Pow256(5)
    ensures Opened(c, FooterOf(h, bs), bs).Valid() && Opened(c, FooterOf(h, bs), bs).data == IndexBytes(c, h, bs)
    ensures Verdict(Opened(c, FooterOf(h, bs), bs), h) == None
  {
    Pow256Is(8);
    hide Pow256, Config.Valid, Complete, Verdict, IndexWith, Index.Valid, BlockHashes, Metadata;
    VerifyExact(c, FooterOf(h, bs), bs, h);
  }

  /** Blocks altered after the index was finished, footer and layout kept, are accepted only
      if the hashes collide. */
  lemma AlterationNeedsCollision(c: Config, bs: seq<Block>, altered: seq<Block>, h: HashFn)
    requires c.Valid() && Complete(c, altered) && |Metadata(altered)| < Pow256(5)
    ensures Opened(c, FooterOf(h, bs), altered).Valid()
    ensures Verdict(Opened(c, FooterOf(h, bs), altered), h) == None ==>
              && h(BlockHashes(h, altered)) == h(BlockHashes(h, bs))
              && (Metadata(altered) != [] ==> h(Metadata(altered)) == h(Metadata(bs)))
  {
    Pow256Is(8);
    hide Pow256, Config.Valid, Complete, Verdict, IndexWith, Index.Valid, BlockHashes, Metadata, Opened;
    VerifyExact(c, FooterOf(h, bs), altered, h);
  }
}
