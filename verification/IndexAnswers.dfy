/** What a lookup answers for any key at all, on the bytes of the index: the decoder's slot behind
    the block's first rank, and with the check on, only where the stored fingerprint is the key's. */
module IndexAnswers {
  import opened Basics
  import opened LittleEndian
  import opened Encoding
  import opened IndexFormat
  import opened IndexWriter
  import opened IndexReader
  import opened IndexLookup
  import opened Routing
  import opened BlockBuilding
  import opened SortedBuilder
  import BuildModes

  // Where the entry of a rank begins.
  function EntryStart(idx: Index, rank: nat): nat {
    idx.payloadRegionOffset + rank * (idx.header.payloadSize + idx.header.fingerprintSize)
  }

  // The fingerprint stored at a rank.
  function StoredFingerprint(idx: Index, rank: nat): nat
    requires EntryStart(idx, rank) + idx.header.fingerprintSize <= |idx.data|
  {
    GetLE(idx.data[EntryStart(idx, rank)..EntryStart(idx, rank) + idx.header.fingerprintSize])
  }

  lemma SliceOfSlice(data: seq<Byte>, at: nat, size: nat)
    requires at + size <= |data|
    ensures data[at..][..size] == data[at..at + size]
  {
  }

  lemma StartIs(idx: Index, rank: nat)
    ensures EntryStart(idx, rank) == idx.payloadRegionOffset + Offset(rank, idx.header.EntrySize())
  {
  }

  lemma MatchesIs(idx: Index, k0: UInt64, k1: UInt64, rank: nat)
    ensures FingerprintMatches(idx, k0, k1, rank)
         == if EntryStart(idx, rank) + idx.header.fingerprintSize > |idx.data| then Err(CorruptedIndex)
            else Ok(StoredFingerprint(idx, rank) == ExtractFingerprint(k0, k1, idx.header.fingerprintSize))
  {
    StartIs(idx, rank);
    var at, size := EntryStart(idx, rank), idx.header.fingerprintSize;
    hide EntryStart, Offset, GetLE, ExtractFingerprint, Header.EntrySize;
    if at + size <= |idx.data| {
      SliceOfSlice(idx.data, at, size);
    }
  }

  // The unchecked answer, once the key's fingerprint has been compared.
  function Compared(idx: Index, k0: UInt64, k1: UInt64, unchecked: Result<nat, IndexError>): Result<nat, IndexError> {
    match unchecked
    case Err(e) => Err(e)
    case Ok(rank) =>
      if idx.header.fingerprintSize == 0 then Ok(rank)
      else if EntryStart(idx, rank) + idx.header.fingerprintSize > |idx.data| then Err(CorruptedIndex)
      else if StoredFingerprint(idx, rank) == ExtractFingerprint(k0, k1, idx.header.fingerprintSize) then Ok(rank)
      else Err(NotFound)
  }

  // The check comes last.
  lemma CheckedInBlock(idx: Index, dec: Decoder, k0: UInt64, k1: UInt64, entry: RAMEntry, next: RAMEntry)
    ensures LookupInBlock(idx, dec, k0, k1, entry, next, true)
         == match LookupInBlock(idx, dec, k0, k1, entry, next, false)
            case Err(e) => Err(e)
            case Ok(rank) =>
              if idx.header.fingerprintSize == 0 then Ok(rank)
              else match FingerprintMatches(idx, k0, k1, rank)
                   case Err(e) => Err(e)
                   case Ok(matches) => if matches then Ok(rank) else Err(NotFound)
  {
    hide FingerprintMatches;
  }

  lemma ComparedIf(idx: Index, k0: UInt64, k1: UInt64, unchecked: Result<nat, IndexError>)
    ensures Compared(idx, k0, k1, unchecked)
         == match unchecked
            case Err(e) => Err(e)
            case Ok(rank) =>
              if idx.header.fingerprintSize == 0 then Ok(rank)
              else match FingerprintMatches(idx, k0, k1, rank)
                   case Err(e) => Err(e)
                   case Ok(matches) => if matches then Ok(rank) else Err(NotFound)
  {
    if unchecked.Ok? {
      MatchesIs(idx, k0, k1, unchecked.value);
    }
    hide FingerprintMatches, StoredFingerprint, EntryStart, ExtractFingerprint;
  }

  lemma ComparedInBlock(idx: Index, dec: Decoder, k0: UInt64, k1: UInt64, entry: RAMEntry, next: RAMEntry)
    ensures LookupInBlock(idx, dec, k0, k1, entry, next, true)
         == Compared(idx, k0, k1, LookupInBlock(idx, dec, k0, k1, entry, next, false))
  {
    hide *;
    CheckedInBlock(idx, dec, k0, k1, entry, next);
    ComparedIf(idx, k0, k1, LookupInBlock(idx, dec, k0, k1, entry, next, false));
  }

  /** With the check on, a lookup answers a rank only if the bytes stored there are the key's
      fingerprint; where they are another's, the key is not found. */
  lemma CheckedLookup(idx: Index, dec: Decoder, k0: UInt64, k1: UInt64)
    requires idx.Valid()
    ensures Lookup(idx, dec, k0, k1, true) == Compared(idx, k0, k1, Lookup(idx, dec, k0, k1, false))
  {
    hide Compared, LookupInBlock, Route, Index.Valid, Index.RAMEntryAt;
    var b := Route(k0, idx.header.numBlocks);
    if b < idx.header.numBlocks {
      ComparedInBlock(idx, dec, k0, k1, idx.RAMEntryAt(b), idx.RAMEntryAt(b + 1));
    } else {
      ComparedNotFound(idx, k0, k1);
    }
  }

  lemma ComparedNotFound(idx: Index, k0: UInt64, k1: UInt64)
    ensures Compared(idx, k0, k1, Err(NotFound)) == Err(NotFound)
  {
  }

  /** A payload query reads the payload stored behind that fingerprint. */
  lemma QueryReads(idx: Index, dec: Decoder, key: seq<Byte>)
    requires idx.Valid()
    ensures |key| < 16 ==> QueryPayload(idx, dec, key) == Err(KeyTooShort)
    ensures |key| >= 16 ==>
              match Lookup(idx, dec, Word(key[0..8]), Word(key[8..16]), true)
              case Err(e) => QueryPayload(idx, dec, key) == Err(e)
              case Ok(rank) =>
                var at := EntryStart(idx, rank) + idx.header.fingerprintSize;
                QueryPayload(idx, dec, key) ==
                if at + idx.header.payloadSize > |idx.data| then Err(CorruptedIndex)
                else Ok((rank, GetLE(idx.data[at..at + idx.header.payloadSize])))
  {
    QueryParts(idx, dec, key);
    hide *;
    if |key| >= 16 {
      var r := Lookup(idx, dec, Word(key[0..8]), Word(key[8..16]), true);
      if r.Ok? { PayloadIs(idx, r.value); }
    }
  }

  lemma QueryParts(idx: Index, dec: Decoder, key: seq<Byte>)
    requires idx.Valid()
    ensures |key| < 16 ==> QueryPayload(idx, dec, key) == Err(KeyTooShort)
    ensures |key| >= 16 ==>
              match Lookup(idx, dec, Word(key[0..8]), Word(key[8..16]), true)
              case Err(e) => QueryPayload(idx, dec, key) == Err(e)
              case Ok(rank) =>
                var offset := idx.payloadRegionOffset + Offset(rank, idx.header.EntrySize()) + idx.header.fingerprintSize;
                QueryPayload(idx, dec, key) ==
                if offset + idx.header.payloadSize > |idx.data| then Err(CorruptedIndex)
                else Ok((rank, ReadPayload(idx.data[offset..], idx.header.payloadSize)))
  {
    hide Lookup, Word, Index.Valid, Offset, ReadPayload, Header.EntrySize;
  }

  lemma PayloadIs(idx: Index, rank: nat)
    ensures var at, offset := EntryStart(idx, rank) + idx.header.fingerprintSize,
                              idx.payloadRegionOffset + Offset(rank, idx.header.EntrySize()) + idx.header.fingerprintSize;
            && at == offset
            && (at + idx.header.payloadSize <= |idx.data| ==>
                  ReadPayload(idx.data[offset..], idx.header.payloadSize) == GetLE(idx.data[at..at + idx.header.payloadSize]))
  {
    StartIs(idx, rank);
    var at := EntryStart(idx, rank) + idx.header.fingerprintSize;
    if at + idx.header.payloadSize <= |idx.data| { SliceOfSlice(idx.data, at, idx.header.payloadSize); }
    hide EntryStart, Offset, GetLE, Header.EntrySize;
  }

  // ---------- On a finished file ----------

  lemma InBlockExact(idx: Index, dec: Decoder, k0: UInt64, k1: UInt64, entry: RAMEntry, next: RAMEntry, metadata: seq<Byte>)
    requires entry.keysBefore <= next.keysBefore && next.metadataOffset == entry.metadataOffset + |metadata|
    requires entry.keysBefore < next.keysBefore ==> |metadata| > 0
    requires var from := idx.metadataRegionOffset + entry.metadataOffset;
             from + |metadata| <= |idx.data| && idx.data[from..from + |metadata|] == metadata
    ensures LookupInBlock(idx, dec, k0, k1, entry, next, false)
         == if entry.keysBefore == next.keysBefore then Err(NotFound)
            else match dec(k0, k1, metadata, next.keysBefore - entry.keysBefore)
                 case Err(e) => Err(e)
                 case Ok(slot) => Ok(entry.keysBefore + slot)
  {
  }

  // The answer in block b.
  ghost function InBlock(bs: seq<Block>, b: nat, dec: Decoder, k0: UInt64, k1: UInt64): Result<nat, IndexError>
    requires b < |bs|
  {
    if bs[b].numKeys == 0 then Err(NotFound)
    else
      match dec(k0, k1, bs[b].metadata, bs[b].numKeys)
      case Err(e) => Err(e)
      case Ok(slot) => Ok(Keys(bs[..b]) + slot)
  }

  /** On a finished file a lookup goes to the block of the key's prefix: an empty block does not have
      it, and otherwise the answer is the decoder's slot behind the keys of the blocks before. */
  lemma LookupExact(c: Config, f: Footer, bs: seq<Block>, dec: Decoder, k0: UInt64, k1: UInt64)
    requires c.Valid() && Complete(c, bs) && |Metadata(bs)| < Pow256(5) && c.numBlocks > 0
    requires forall b :: 0 <= b < |bs| && bs[b].numKeys > 0 ==> |bs[b].metadata| > 0
    ensures Opened(c, f, bs).Valid() && Route(k0, c.numBlocks) < |bs|
    ensures Lookup(Opened(c, f, bs), dec, k0, k1, false) == InBlock(bs, Route(k0, c.numBlocks), dec, k0, k1)
  {
    hide *;
    OpenedValid(c, f, bs);
    OpenedFields(c, f, bs);
    CompleteBlocks(c, bs);
    RouteBelow(k0, c.numBlocks);
    var b := Route(k0, c.numBlocks);
    EntryRead(c, f, bs, b);
    EntryRead(c, f, bs, b + 1);
    MetadataAt(c, f, bs, b);
    KeysThrough(bs, b);
    EntryAfterIs(bs[..b]);
    EntryAfterIs(bs[..b + 1]);
    LookupIs(Opened(c, f, bs), dec, Entry(k0, k1, 0), b, false);
    InBlockExact(Opened(c, f, bs), dec, k0, k1, EntryAfter(bs[..b]), EntryAfter(bs[..b + 1]), bs[b].metadata);
    InBlockIs(bs, b, dec, k0, k1);
  }

  lemma InBlockIs(bs: seq<Block>, b: nat, dec: Decoder, k0: UInt64, k1: UInt64)
    requires b < |bs|
    ensures InBlock(bs, b, dec, k0, k1)
         == if bs[b].numKeys == 0 then Err(NotFound)
            else match dec(k0, k1, bs[b].metadata, bs[b].numKeys)
                 case Err(e) => Err(e)
                 case Ok(slot) => Ok(Keys(bs[..b]) + slot)
  {
  }

  lemma StoredIsMembers(idx: Index, e: Entry, rank: nat)
    requires Decodes(idx.data, idx.payloadRegionOffset + Offset(rank, idx.header.EntrySize()), e,
                     idx.header.fingerprintSize, idx.header.payloadSize)
    ensures EntryStart(idx, rank) + idx.header.fingerprintSize <= |idx.data|
    ensures StoredFingerprint(idx, rank) == ExtractFingerprint(e.k0, e.k1, idx.header.fingerprintSize)
  {
    StartIs(idx, rank);
    SliceOfSlice(idx.data, EntryStart(idx, rank), idx.header.fingerprintSize);
    hide EntryStart, Offset, GetLE, ExtractFingerprint, ReadPayload, Header.EntrySize;
  }

  /** In a finished index, a key whose place is that of the i-th key added is answered that rank if
      it has the i-th key's fingerprint, and is not found if it has not. */
  lemma StrangersAreRefused(c: Config, h: HashFn, dec: Decoder, build: BlockBuilder, added: seq<Entry>, i: nat, k0: UInt64, k1: UInt64)
    requires BuildModes.Success(c, build, added) && BuildModes.Correct(c, dec, build)
    requires i < |added| && added[i].payload < Pow256(c.payloadSize)
    ensures c.numBlocks > 0 && c.Valid() && AllBuild(build, BlocksOf(c.numBlocks, added, c.numBlocks))
    ensures BuildModes.Finished(c, h, build, added).Valid()
    ensures var idx, rank := BuildModes.Finished(c, h, build, added), BuildModes.RankOf(c, dec, build, added, i);
            Lookup(idx, dec, k0, k1, false) == Ok(rank) ==>
              Lookup(idx, dec, k0, k1, true) ==
              if c.fingerprintSize == 0
                 || ExtractFingerprint(k0, k1, c.fingerprintSize) == ExtractFingerprint(added[i].k0, added[i].k1, c.fingerprintSize)
              then Ok(rank) else Err(NotFound)
  {
    hide *;
    BuildModes.SuccessIs(c, build, added);
    BuildModes.AllAnswered(c, dec, build, added);
    BuildModes.PlaceIs(c.numBlocks, added, i);
    var blocks := BlocksOf(c.numBlocks, added, c.numBlocks);
    var bs := Built(build, blocks);
    var f := FooterOf(h, bs);
    var b, p := Route(added[i].k0, c.numBlocks), BuildModes.Place(c.numBlocks, added, i);
    CompleteBlocks(c, bs);
    LookupFinds(c, f, bs, dec, blocks, b, p, true);
    BuildModes.FinishedIs(c, h, build, added);
    BuildModes.RankOfIs(c, dec, build, added, i);
    var rank := Rank(dec, blocks, bs, b, p);
    StoredDecodes(c, f, bs, rank, blocks[b][p]);
    OpenedFields(c, f, bs);
    StoredIsMembers(Opened(c, f, bs), blocks[b][p], rank);
    CheckedLookup(Opened(c, f, bs), dec, k0, k1);
    ComparedIs(Opened(c, f, bs), k0, k1, rank);
  }

  lemma ComparedIs(idx: Index, k0: UInt64, k1: UInt64, rank: nat)
    requires EntryStart(idx, rank) + idx.header.fingerprintSize <= |idx.data|
    ensures Compared(idx, k0, k1, Ok(rank))
         == if idx.header.fingerprintSize == 0
               || StoredFingerprint(idx, rank) == ExtractFingerprint(k0, k1, idx.header.fingerprintSize) then Ok(rank) else Err(NotFound)
  {
    hide StoredFingerprint, EntryStart, ExtractFingerprint;
  }
}
