/** Looking keys up in a finished index: every key finds its rank and its entry, and the
    ranks are exactly 0 .. N - 1. */
module IndexLookup {
  import opened Basics
  import opened LittleEndian
  import opened Encoding
  import opened Files
  import opened IndexFormat
  import opened IndexWriter
  import opened IndexReader
  import opened Routing

  // An algorithm's decoder: two key words, the block's metadata and its number of keys.
  type Decoder = (UInt64, UInt64, seq<Byte>, nat) -> Result<nat, IndexError>

  // The fingerprint stored at a rank is the key's.
  function FingerprintMatches(idx: Index, k0: UInt64, k1: UInt64, rank: nat): Result<bool, IndexError> {
    var size := idx.header.fingerprintSize;
    var offset := idx.payloadRegionOffset + Offset(rank, idx.header.EntrySize());
    if offset + size > |idx.data| then Err(CorruptedIndex)
    else Ok(ReadFP(idx.data[offset..], size) == ExtractFingerprint(k0, k1, size))
  }

  function LookupInBlock(idx: Index, dec: Decoder, k0: UInt64, k1: UInt64, entry: RAMEntry, next: RAMEntry,
                         checkFingerprint: bool): Result<nat, IndexError>
  {
    if next.keysBefore < entry.keysBefore then Err(CorruptedIndex)
    else if next.keysBefore == entry.keysBefore then Err(NotFound)
    else
      var metaStart := idx.metadataRegionOffset + entry.metadataOffset;
      var metaEnd := idx.metadataRegionOffset + next.metadataOffset;
      if metaStart >= metaEnd || metaEnd > |idx.data| then Err(CorruptedIndex)
      else match dec(k0, k1, idx.data[metaStart..metaEnd], next.keysBefore - entry.keysBefore)
        case Err(e) => Err(e)
        case Ok(localSlot) =>
          var rank := entry.keysBefore + localSlot;
          if checkFingerprint && idx.header.fingerprintSize > 0 then
            match FingerprintMatches(idx, k0, k1, rank)
            case Err(e) => Err(e)
            case Ok(matches) => if matches then Ok(rank) else Err(NotFound)
          else Ok(rank)
  }

  function Lookup(idx: Index, dec: Decoder, k0: UInt64, k1: UInt64, checkFingerprint: bool): Result<nat, IndexError>
    requires idx.Valid()
  {
    var block := Route(k0, idx.header.numBlocks);
    if block + 1 >= idx.header.numBlocks + 1 then Err(NotFound)
    else LookupInBlock(idx, dec, k0, k1, idx.RAMEntryAt(block), idx.RAMEntryAt(block + 1), checkFingerprint)
  }

  function QueryRank(idx: Index, dec: Decoder, key: seq<Byte>): Result<nat, IndexError>
    requires idx.Valid()
  {
    if |key| < MIN_KEY_SIZE then Err(KeyTooShort)
    else Lookup(idx, dec, Word(key[0..8]), Word(key[8..16]), true)
  }

  function QueryPayload(idx: Index, dec: Decoder, key: seq<Byte>): Result<(nat, nat), IndexError>
    requires idx.Valid()
  {
    match QueryRank(idx, dec, key)
    case Err(e) => Err(e)
    case Ok(rank) =>
      var offset := idx.payloadRegionOffset + Offset(rank, idx.header.EntrySize()) + idx.header.fingerprintSize;
      if offset + idx.header.payloadSize > |idx.data| then Err(CorruptedIndex)
      else Ok((rank, ReadPayload(idx.data[offset..], idx.header.payloadSize)))
  }

  // ---------- What a block promises ----------

  // The decoder's answer for entry i on the block built from the entries.
  ghost function Slot(dec: Decoder, es: seq<Entry>, b: Block, i: nat): Result<nat, IndexError>
    requires i < |es|
  {
    dec(es[i].k0, es[i].k1, b.metadata, |es|)
  }

  // Entry i is answered a slot of the block, and its bytes are there.
  ghost predicate AnswersAt(c: Config, dec: Decoder, es: seq<Entry>, b: Block, i: nat)
    requires i < |es|
  {
    var slot := Slot(dec, es, b, i);
    && slot.Ok? && slot.value < |es|
    && Offset(slot.value, c.EntrySize()) + c.EntrySize() <= |b.payloads|
    && EntryOf(b.payloads, slot.value, c.EntrySize())
       == EntryBytes(ExtractFingerprint(es[i].k0, es[i].k1, c.fingerprintSize), es[i].payload, c.fingerprintSize, c.payloadSize)
  }

  /** The block is a perfect hash of the entries it was built from, and stores them. */
  ghost predicate Answers(c: Config, dec: Decoder, es: seq<Entry>, b: Block) {
    && b.numKeys == |es|
    && (|es| > 0 ==> |b.metadata| > 0)
    && (forall i :: 0 <= i < |es| ==> AnswersAt(c, dec, es, b, i))
    && (forall i, j :: 0 <= i < j < |es| ==> Slot(dec, es, b, i) != Slot(dec, es, b, j))
  }

  // Every block answers the entries routed to it.
  ghost predicate AllAnswer(c: Config, dec: Decoder, blocks: seq<seq<Entry>>, bs: seq<Block>) {
    && |blocks| == |bs| == c.numBlocks
    && forall b :: 0 <= b < |bs| ==> Answers(c, dec, blocks[b], bs[b]) && Routed(blocks[b], b, c.numBlocks)
  }

  ghost predicate Routed(es: seq<Entry>, b: nat, numBlocks: nat) {
    forall i :: 0 <= i < |es| ==> Route(es[i].k0, numBlocks) == b
  }

  // ---------- Where a block's bytes are ----------

  lemma MetadataAt(c: Config, f: Footer, bs: seq<Block>, b: nat)
    requires c.Valid() && Complete(c, bs) && b < |bs|
    ensures var from := c.MetadataRegionOffset() + |Metadata(bs[..b])|;
            && |Metadata(bs[..b + 1])| == |Metadata(bs[..b])| + |bs[b].metadata|
            && from + |bs[b].metadata| <= |IndexWith(c, bs, f)|
            && IndexWith(c, bs, f)[from..from + |bs[b].metadata|] == bs[b].metadata
  {
    hide *;
    Parts(c, f, bs);
    MetadataBefore(bs, b);
    Within(IndexWith(c, bs, f), c.MetadataRegionOffset(), Metadata(bs), Metadata(bs[..b]), bs[b].metadata);
  }

  lemma MetadataBefore(bs: seq<Block>, b: nat)
    requires b < |bs|
    ensures var before := Metadata(bs[..b]);
            && |Metadata(bs[..b + 1])| == |before| + |bs[b].metadata|
            && |before + bs[b].metadata| <= |Metadata(bs)| && Metadata(bs)[..|before + bs[b].metadata|] == before + bs[b].metadata
  {
    assert bs[..b + 1][..b] == bs[..b] && bs[..|bs|] == bs;
    MetadataMonotone(bs, b + 1, |bs|);
  }

  lemma Within(data: seq<Byte>, at: nat, all: seq<Byte>, before: seq<Byte>, piece: seq<Byte>)
    requires Has(data, at, all) && at + |all| <= |data|
    requires |before + piece| <= |all| && all[..|before + piece|] == before + piece
    ensures data[at + |before|..at + |before| + |piece|] == piece
  {
    var rest := all[|before + piece|..];
    assert all == before + piece + rest;
    HasSplit(data, at, before + piece, rest);
    HasSplit(data, at, before, piece);
    assert |piece| == 0 ==> data[at + |before|..at + |before|] == [];
  }

  lemma {:induction false} PayloadsMonotone(bs: seq<Block>, i: nat, j: nat)
    requires i <= j <= |bs|
    ensures |Payloads(bs[..i])| <= |Payloads(bs[..j])| && Payloads(bs[..j])[..|Payloads(bs[..i])|] == Payloads(bs[..i])
    decreases j
  {
    if i < j {
      PayloadsMonotone(bs, i, j - 1);
      assert bs[..j][..j - 1] == bs[..j - 1];
    }
  }

  lemma PayloadsAtOffset(c: Config, f: Footer, bs: seq<Block>, b: nat)
    requires c.Valid() && Complete(c, bs) && b < |bs|
    ensures var from := c.PayloadOffset(Keys(bs[..b]));
            && from + |bs[b].payloads| <= |IndexWith(c, bs, f)|
            && IndexWith(c, bs, f)[from..from + |bs[b].payloads|] == bs[b].payloads
  {
    hide *;
    Parts(c, f, bs);
    Sizes(c, f, bs);
    PayloadsBefore(c, bs, b);
    PayloadOffsetIs(c, Keys(bs[..b]));
    Within(IndexWith(c, bs, f), c.PayloadRegionOffset(), Payloads(bs), Payloads(bs[..b]), bs[b].payloads);
  }

  lemma PayloadsBefore(c: Config, bs: seq<Block>, b: nat)
    requires Complete(c, bs) && b < |bs|
    ensures |Payloads(bs[..b])| == Offset(Keys(bs[..b]), c.EntrySize())
    ensures var before := Payloads(bs[..b]);
            |before + bs[b].payloads| <= |Payloads(bs)| && Payloads(bs)[..|before + bs[b].payloads|] == before + bs[b].payloads
  {
    assert bs[..b + 1][..b] == bs[..b] && bs[..|bs|] == bs;
    PayloadsMonotone(bs, b + 1, |bs|);
    assert Payloads(bs[..b + 1]) == Payloads(bs[..b]) + bs[b].payloads;
    assert Sized(c, bs[..b]);
    PayloadsSize(c, bs[..b]);
    hide Offset;
  }

  // ---------- Lookups ----------

  // The rank of entry i of block b.
  ghost function Rank(dec: Decoder, blocks: seq<seq<Entry>>, bs: seq<Block>, b: nat, i: nat): nat
    requires b < |blocks| && b < |bs| && i < |blocks[b]|
  {
    var slot := Slot(dec, blocks[b], bs[b], i);
    Keys(bs[..b]) + if slot.Ok? then slot.value else 0
  }

  // What lies at the rank of entry i of block b.
  lemma EntryAtRank(c: Config, f: Footer, bs: seq<Block>, dec: Decoder, blocks: seq<seq<Entry>>, b: nat, i: nat)
    requires c.Valid() && Complete(c, bs) && AllAnswer(c, dec, blocks, bs) && b < |bs| == |blocks| && i < |blocks[b]|
    ensures var e := blocks[b][i];
            var at := c.PayloadOffset(Rank(dec, blocks, bs, b, i));
            && at + c.EntrySize() <= |IndexWith(c, bs, f)|
            && IndexWith(c, bs, f)[at..at + c.EntrySize()]
               == EntryBytes(ExtractFingerprint(e.k0, e.k1, c.fingerprintSize), e.payload, c.fingerprintSize, c.payloadSize)
  {
    hide *;
    PayloadsAtOffset(c, f, bs, b);
    AnswersIs(c, dec, blocks, bs, b, i);
    var slot := Slot(dec, blocks[b], bs[b], i).value;
    AnswersBytes(c, dec, blocks[b], bs[b], i);
    PayloadOffsets(c, Keys(bs[..b]), slot);
    EntryWithin(IndexWith(c, bs, f), c.PayloadOffset(Keys(bs[..b])), bs[b].payloads, slot, c.EntrySize());
  }

  lemma AnswersBytes(c: Config, dec: Decoder, es: seq<Entry>, b: Block, i: nat)
    requires i < |es| && AnswersAt(c, dec, es, b, i) && Slot(dec, es, b, i).Ok?
    ensures var slot := Slot(dec, es, b, i).value;
            && Offset(slot, c.EntrySize()) + c.EntrySize() <= |b.payloads|
            && EntryOf(b.payloads, slot, c.EntrySize())
               == EntryBytes(ExtractFingerprint(es[i].k0, es[i].k1, c.fingerprintSize), es[i].payload, c.fingerprintSize, c.payloadSize)
  {
    hide EntryBytes, EntryOf, Offset, ExtractFingerprint;
  }

  lemma EntryWithin(data: seq<Byte>, from: nat, region: seq<Byte>, slot: nat, size: nat)
    requires from + |region| <= |data| && data[from..from + |region|] == region
    requires Offset(slot, size) + size <= |region|
    ensures data[from + Offset(slot, size)..from + Offset(slot, size) + size] == EntryOf(region, slot, size)
  {
    hide Offset;
    SubSlice(data, from, from + |region|, Offset(slot, size), Offset(slot, size) + size);
  }

  lemma AnswersIs(c: Config, dec: Decoder, blocks: seq<seq<Entry>>, bs: seq<Block>, b: nat, i: nat)
    requires AllAnswer(c, dec, blocks, bs) && b < |bs| == |blocks| && i < |blocks[b]|
    ensures |bs| == c.numBlocks && bs[b].numKeys == |blocks[b]| && |bs[b].metadata| > 0
    ensures AnswersAt(c, dec, blocks[b], bs[b], i) && Route(blocks[b][i].k0, c.numBlocks) == b
    ensures Slot(dec, blocks[b], bs[b], i).Ok? && Slot(dec, blocks[b], bs[b], i).value < |blocks[b]|
    ensures Rank(dec, blocks, bs, b, i) == Keys(bs[..b]) + Slot(dec, blocks[b], bs[b], i).value
  {
    assert Answers(c, dec, blocks[b], bs[b]) && Routed(blocks[b], b, c.numBlocks);
    hide Route, EntryBytes, EntryOf, Offset, ExtractFingerprint;
  }

  lemma OpenedFields(c: Config, f: Footer, bs: seq<Block>)
    requires c.Valid()
    ensures var idx := Opened(c, f, bs);
            && idx.data == IndexWith(c, bs, f) && idx.header.numBlocks == c.numBlocks
            && idx.header.fingerprintSize == c.fingerprintSize && idx.header.payloadSize == c.payloadSize
            && idx.header.EntrySize() == c.EntrySize() && idx.header.totalKeys == c.totalKeys
            && idx.payloadRegionOffset == c.PayloadRegionOffset() && idx.metadataRegionOffset == c.MetadataRegionOffset()
  {
  }

  /** A key of the index is answered its rank, with or without the fingerprint check. */
  lemma LookupFinds(c: Config, f: Footer, bs: seq<Block>, dec: Decoder, blocks: seq<seq<Entry>>, b: nat, i: nat, check: bool)
    requires c.Valid() && Complete(c, bs) && |Metadata(bs)| < Pow256(5) && AllAnswer(c, dec, blocks, bs)
    requires b < |bs| == |blocks| && i < |blocks[b]| && blocks[b][i].payload < Pow256(c.payloadSize)
    ensures Opened(c, f, bs).Valid()
    ensures Lookup(Opened(c, f, bs), dec, blocks[b][i].k0, blocks[b][i].k1, check) == Ok(Rank(dec, blocks, bs, b, i))
    ensures PayloadStored(c, f, bs, Rank(dec, blocks, bs, b, i), blocks[b][i])
  {
    hide *;
    AnswersIs(c, dec, blocks, bs, b, i);
    var e := blocks[b][i];
    var rank := Rank(dec, blocks, bs, b, i);
    OpenedValid(c, f, bs);
    OpenedFields(c, f, bs);
    EntryRead(c, f, bs, b);
    EntryRead(c, f, bs, b + 1);
    MetadataAt(c, f, bs, b);
    KeysThrough(bs, b);
    EntryAtRank(c, f, bs, dec, blocks, b, i);
    EntryDecodes(c, f, bs, rank, e);
    StoredDecodes(c, f, bs, rank, e);
    DecodesMatches(Opened(c, f, bs), e, rank);
    LookupIs(Opened(c, f, bs), dec, e, b, check);
    EntryAfterIs(bs[..b]);
    EntryAfterIs(bs[..b + 1]);
    SlotIs(dec, blocks[b], bs[b], i);
    LookupInBlockIs(Opened(c, f, bs), dec, e, EntryAfter(bs[..b]), EntryAfter(bs[..b + 1]), bs[b].metadata,
                    Slot(dec, blocks[b], bs[b], i).value, check);
  }

  lemma EntryAfterIs(bs: seq<Block>)
    ensures EntryAfter(bs) == RAMEntry(Keys(bs), |Metadata(bs)|)
  {
  }

  lemma SlotIs(dec: Decoder, es: seq<Entry>, b: Block, i: nat)
    requires i < |es|
    ensures Slot(dec, es, b, i) == dec(es[i].k0, es[i].k1, b.metadata, |es|)
  {
  }

  lemma LookupIs(idx: Index, dec: Decoder, e: Entry, b: nat, check: bool)
    requires idx.Valid() && Route(e.k0, idx.header.numBlocks) == b < idx.header.numBlocks
    ensures Lookup(idx, dec, e.k0, e.k1, check) == LookupInBlock(idx, dec, e.k0, e.k1, idx.RAMEntryAt(b), idx.RAMEntryAt(b + 1), check)
  {
    hide Route, LookupInBlock, Index.Valid, Index.RAMEntryAt;
  }

  // The bytes at `at` decode to the key's fingerprint and payload.
  ghost predicate Decodes(data: seq<Byte>, at: nat, e: Entry, fingerprintSize: nat, payloadSize: nat) {
    && at + fingerprintSize + payloadSize <= |data|
    && ReadFP(data[at..], fingerprintSize) == ExtractFingerprint(e.k0, e.k1, fingerprintSize)
    && ReadPayload(data[at + fingerprintSize..], payloadSize) == e.payload
  }

  ghost predicate PayloadStored(c: Config, f: Footer, bs: seq<Block>, rank: nat, e: Entry)
    requires c.Valid()
  {
    Decodes(IndexWith(c, bs, f), c.PayloadOffset(rank), e, c.fingerprintSize, c.payloadSize)
  }

  // An opened index sees the entry of a rank where the writer put it.
  lemma StoredDecodes(c: Config, f: Footer, bs: seq<Block>, rank: nat, e: Entry)
    requires c.Valid() && PayloadStored(c, f, bs, rank, e)
    ensures var idx := Opened(c, f, bs);
            Decodes(idx.data, idx.payloadRegionOffset + Offset(rank, idx.header.EntrySize()), e,
                    idx.header.fingerprintSize, idx.header.payloadSize)
  {
    hide *;
    OpenedFields(c, f, bs);
    PayloadOffsetIs(c, rank);
    StoredIs(c, f, bs, rank, e);
  }

  lemma StoredIs(c: Config, f: Footer, bs: seq<Block>, rank: nat, e: Entry)
    requires c.Valid()
    ensures PayloadStored(c, f, bs, rank, e)
            <==> Decodes(IndexWith(c, bs, f), c.PayloadOffset(rank), e, c.fingerprintSize, c.payloadSize)
  {
  }

  lemma DecodesMatches(idx: Index, e: Entry, rank: nat)
    requires Decodes(idx.data, idx.payloadRegionOffset + Offset(rank, idx.header.EntrySize()), e,
                     idx.header.fingerprintSize, idx.header.payloadSize)
    ensures FingerprintMatches(idx, e.k0, e.k1, rank) == Ok(true)
  {
    hide ReadFP, ReadPayload, ExtractFingerprint, Offset, Header.EntrySize;
  }

  lemma EntryDecodes(c: Config, f: Footer, bs: seq<Block>, rank: nat, e: Entry)
    requires c.Valid() && e.payload < Pow256(c.payloadSize)
    requires var at := c.PayloadOffset(rank);
             && at + c.EntrySize() <= |IndexWith(c, bs, f)|
             && IndexWith(c, bs, f)[at..at + c.EntrySize()]
                == EntryBytes(ExtractFingerprint(e.k0, e.k1, c.fingerprintSize), e.payload, c.fingerprintSize, c.payloadSize)
    ensures PayloadStored(c, f, bs, rank, e)
  {
    hide IndexWith, EntryBytes, ExtractFingerprint, Config.PayloadOffset, Pow256, Config.Valid, ReadFP, ReadPayload, HeaderOf;
    ReadAt(IndexWith(c, bs, f), c.PayloadOffset(rank), ExtractFingerprint(e.k0, e.k1, c.fingerprintSize), e.payload,
           c.fingerprintSize, c.payloadSize);
  }

  lemma LookupInBlockIs(idx: Index, dec: Decoder, e: Entry, entry: RAMEntry, next: RAMEntry, metadata: seq<Byte>, slot: nat, check: bool)
    requires entry.keysBefore < next.keysBefore && |metadata| > 0
    requires next.metadataOffset == entry.metadataOffset + |metadata|
    requires var from := idx.metadataRegionOffset + entry.metadataOffset;
             from + |metadata| <= |idx.data| && idx.data[from..from + |metadata|] == metadata
    requires dec(e.k0, e.k1, metadata, next.keysBefore - entry.keysBefore) == Ok(slot)
    requires FingerprintMatches(idx, e.k0, e.k1, entry.keysBefore + slot) == Ok(true)
    ensures LookupInBlock(idx, dec, e.k0, e.k1, entry, next, check) == Ok(entry.keysBefore + slot)
  {
    hide FingerprintMatches;
  }

  /** Looking a key up by its bytes gives its rank and its own payload. */
  lemma QueryFinds(c: Config, f: Footer, bs: seq<Block>, dec: Decoder, blocks: seq<seq<Entry>>, b: nat, i: nat, key: seq<Byte>)
    requires c.Valid() && Complete(c, bs) && |Metadata(bs)| < Pow256(5) && AllAnswer(c, dec, blocks, bs)
    requires b < |bs| == |blocks| && i < |blocks[b]| && blocks[b][i].payload < Pow256(c.payloadSize)
    requires |key| >= 16 && Word(key[0..8]) == blocks[b][i].k0 && Word(key[8..16]) == blocks[b][i].k1
    ensures Opened(c, f, bs).Valid()
    ensures QueryPayload(Opened(c, f, bs), dec, key) == Ok((Rank(dec, blocks, bs, b, i), blocks[b][i].payload))
  {
    hide *;
    AnswersIs(c, dec, blocks, bs, b, i);
    LookupFinds(c, f, bs, dec, blocks, b, i, true);
    var rank := Rank(dec, blocks, bs, b, i);
    StoredDecodes(c, f, bs, rank, blocks[b][i]);
    QueryPayloadIs(Opened(c, f, bs), dec, key, rank, blocks[b][i]);
  }

  lemma QueryPayloadIs(idx: Index, dec: Decoder, key: seq<Byte>, rank: nat, e: Entry)
    requires idx.Valid() && |key| >= 16 && Lookup(idx, dec, Word(key[0..8]), Word(key[8..16]), true) == Ok(rank)
    requires Decodes(idx.data, idx.payloadRegionOffset + Offset(rank, idx.header.EntrySize()), e,
                     idx.header.fingerprintSize, idx.header.payloadSize)
    ensures QueryPayload(idx, dec, key) == Ok((rank, e.payload))
  {
    hide Lookup, Word, ReadFP, ReadPayload, Index.Valid, Offset, ExtractFingerprint, Header.EntrySize;
  }

  // ---------- The ranks are 0 .. N - 1 ----------

  lemma RankInBlock(c: Config, bs: seq<Block>, dec: Decoder, blocks: seq<seq<Entry>>, b: nat, i: nat)
    requires Complete(c, bs) && AllAnswer(c, dec, blocks, bs) && b < |bs| == |blocks| && i < |blocks[b]|
    ensures Keys(bs[..b]) <= Rank(dec, blocks, bs, b, i) < Keys(bs[..b + 1]) <= c.totalKeys
  {
    AnswersIs(c, dec, blocks, bs, b, i);
    KeysThrough(bs, b);
    hide AllAnswer, AnswersAt, Slot, Keys;
  }

  /** Two entries have different ranks. */
  lemma RanksDiffer(c: Config, bs: seq<Block>, dec: Decoder, blocks: seq<seq<Entry>>, b: nat, i: nat, b': nat, i': nat)
    requires Complete(c, bs) && AllAnswer(c, dec, blocks, bs)
    requires b < |bs| == |blocks| && i < |blocks[b]| && b' < |bs| && i' < |blocks[b']| && (b < b' || (b == b' && i < i'))
    ensures Rank(dec, blocks, bs, b, i) != Rank(dec, blocks, bs, b', i')
  {
    hide *;
    if b < b' {
      RankInBlock(c, bs, dec, blocks, b, i);
      RankInBlock(c, bs, dec, blocks, b', i');
      KeysMonotone(bs, b + 1, b');
    } else {
      SlotsDiffer(c, dec, blocks, bs, b, i, i');
      AnswersIs(c, dec, blocks, bs, b, i);
      AnswersIs(c, dec, blocks, bs, b, i');
    }
  }

  lemma SlotsDiffer(c: Config, dec: Decoder, blocks: seq<seq<Entry>>, bs: seq<Block>, b: nat, i: nat, i': nat)
    requires AllAnswer(c, dec, blocks, bs) && b < |bs| == |blocks| && i < i' < |blocks[b]|
    ensures Slot(dec, blocks[b], bs[b], i) != Slot(dec, blocks[b], bs[b], i')
  {
    assert Answers(c, dec, blocks[b], bs[b]);
    hide AnswersAt, Routed, Slot;
  }

  lemma {:induction false} BlockOfRank(bs: seq<Block>, n: nat, r: nat) returns (b: nat)
    requires n <= |bs| && r < Keys(bs[..n])
    ensures b < n && Keys(bs[..b]) <= r < Keys(bs[..b]) + bs[b].numKeys
  {
    assert bs[..n][..n - 1] == bs[..n - 1];
    if r >= Keys(bs[..n - 1]) {
      b := n - 1;
    } else {
      b := BlockOfRank(bs, n - 1, r);
    }
  }

  ghost function SlotsOf(dec: Decoder, es: seq<Entry>, b: Block): (r: seq<nat>)
    ensures |r| == |es|
  {
    seq(|es|, i requires 0 <= i < |es| => var slot := Slot(dec, es, b, i); if slot.Ok? then slot.value else 0)
  }

  lemma SlotTaken(c: Config, dec: Decoder, es: seq<Entry>, b: Block, slot: nat) returns (i: nat)
    requires Answers(c, dec, es, b) && slot < |es|
    ensures i < |es| && Slot(dec, es, b, i) == Ok(slot)
  {
    var slots := SlotsOf(dec, es, b);
    forall i | 0 <= i < |es| ensures Slot(dec, es, b, i) == Ok(slots[i]) && slots[i] < |es| {
      assert AnswersAt(c, dec, es, b, i);
      hide EntryBytes, EntryOf, Offset, ExtractFingerprint;
    }
    hide AnswersAt, Slot;
    Pigeonhole(slots);
    assert slot in Range(|es|);
    i :| 0 <= i < |slots| && slots[i] == slot;
  }

  /** Every rank below N is some entry's: lookups map the N keys one-to-one onto 0 .. N - 1. */
  lemma RankTaken(c: Config, bs: seq<Block>, dec: Decoder, blocks: seq<seq<Entry>>, r: nat) returns (b: nat, i: nat)
    requires Complete(c, bs) && AllAnswer(c, dec, blocks, bs) && r < c.totalKeys
    ensures b < |bs| && |blocks| == |bs| && i < |blocks[b]| && Rank(dec, blocks, bs, b, i) == r
  {
    assert bs[..|bs|] == bs;
    b := BlockOfRank(bs, |bs|, r);
    assert Answers(c, dec, blocks[b], bs[b]);
    hide Keys, AnswersAt;
    i := SlotTaken(c, dec, blocks[b], bs[b], r - Keys(bs[..b]));
  }

  // The decoder stays within the block on its metadata.
  ghost predicate StaysInRange(dec: Decoder, b: Block) {
    forall k0: UInt64, k1: UInt64 {:trigger dec(k0, k1, b.metadata, b.numKeys)} ::
      dec(k0, k1, b.metadata, b.numKeys).Ok? ==> dec(k0, k1, b.metadata, b.numKeys).value < b.numKeys
  }

  /** Any key at all, member or not, is answered a rank below N or an error. */
  lemma LookupStaysInRange(c: Config, f: Footer, bs: seq<Block>, dec: Decoder, k0: UInt64, k1: UInt64, check: bool)
    requires c.Valid() && Complete(c, bs) && |Metadata(bs)| < Pow256(5)
    requires forall b :: 0 <= b < |bs| ==> StaysInRange(dec, bs[b])
    ensures Opened(c, f, bs).Valid()
    ensures var r := Lookup(Opened(c, f, bs), dec, k0, k1, check); r.Ok? ==> r.value < c.totalKeys
  {
    hide *;
    OpenedValid(c, f, bs);
    OpenedFields(c, f, bs);
    CompleteBlocks(c, bs);
    var b := Route(k0, c.numBlocks);
    var idx := Opened(c, f, bs);
    if b < c.numBlocks {
      EntryRead(c, f, bs, b);
      EntryRead(c, f, bs, b + 1);
      MetadataAt(c, f, bs, b);
      KeysThrough(bs, b);
      EntryAfterIs(bs[..b]);
      EntryAfterIs(bs[..b + 1]);
      LookupIs(idx, dec, Entry(k0, k1, 0), b, check);
      InRangeIs(dec, bs[b], k0, k1);
      LookupInBlockBound(idx, dec, k0, k1, EntryAfter(bs[..b]), EntryAfter(bs[..b + 1]), bs[b].metadata, check);
    } else {
      LookupNowhere(idx, dec, k0, k1, check);
    }
  }

  lemma CompleteBlocks(c: Config, bs: seq<Block>)
    requires Complete(c, bs)
    ensures |bs| == c.numBlocks && Keys(bs) == c.totalKeys
  {
  }

  lemma InRangeIs(dec: Decoder, b: Block, k0: UInt64, k1: UInt64)
    requires StaysInRange(dec, b)
    ensures dec(k0, k1, b.metadata, b.numKeys).Ok? ==> dec(k0, k1, b.metadata, b.numKeys).value < b.numKeys
  {
  }

  lemma LookupNowhere(idx: Index, dec: Decoder, k0: UInt64, k1: UInt64, check: bool)
    requires idx.Valid() && Route(k0, idx.header.numBlocks) >= idx.header.numBlocks
    ensures Lookup(idx, dec, k0, k1, check) == Err(NotFound)
  {
    hide LookupInBlock;
  }

  lemma LookupInBlockBound(idx: Index, dec: Decoder, k0: UInt64, k1: UInt64, entry: RAMEntry, next: RAMEntry, metadata: seq<Byte>, check: bool)
    requires entry.keysBefore <= next.keysBefore && next.metadataOffset == entry.metadataOffset + |metadata|
    requires var from := idx.metadataRegionOffset + entry.metadataOffset;
             from + |metadata| <= |idx.data| && idx.data[from..from + |metadata|] == metadata
    requires var n := next.keysBefore - entry.keysBefore;
             dec(k0, k1, metadata, n).Ok? ==> dec(k0, k1, metadata, n).value < n
    ensures var r := LookupInBlock(idx, dec, k0, k1, entry, next, check); r.Ok? ==> r.value < next.keysBefore
  {
    hide FingerprintMatches;
  }
}
