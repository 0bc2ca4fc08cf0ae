/** Reading an index: opening it, looking keys up, and verifying its hashes. */
module IndexReader {
  import opened Basics
  import opened LittleEndian
  import opened Encoding
  import opened Files
  import opened IndexFormat
  import opened IndexWriter

  const MIN_FILE_SIZE: nat := 304

  datatype Index = Index(data: seq<Byte>, header: Header, userMetadata: seq<Byte>, algoConfig: seq<Byte>,
                         ramIndexOffset: nat, payloadRegionOffset: nat, metadataRegionOffset: nat) {
    predicate Valid() {
      && ramIndexOffset + Offset(header.numBlocks + 1, RAM_ENTRY_SIZE) == payloadRegionOffset
      && payloadRegionOffset + FOOTER_SIZE <= |data|
      && metadataRegionOffset == payloadRegionOffset + Offset(header.totalKeys, header.EntrySize())
      && header.fingerprintSize <= MAX_FINGERPRINT_SIZE
    }

    function RAMEntryAt(i: nat): RAMEntry
      requires Valid() && i <= header.numBlocks
    {
      OffsetFits(i, header.numBlocks + 1, RAM_ENTRY_SIZE);
      var at := ramIndexOffset + Offset(i, RAM_ENTRY_SIZE);
      DecodeRAMEntry(data[at..at + RAM_ENTRY_SIZE])
    }
  }

  // ---------- Opening ----------

  // A length-prefixed section at `at`, and where it ends.
  function ReadSection(data: seq<Byte>, at: nat): Result<(seq<Byte>, nat), IndexError> {
    if at + 4 > |data| then Err(TruncatedFile)
    else
      var length := GetLE(data[at..at + 4]);
      if at + 4 + length > |data| then Err(TruncatedFile)
      else Ok((data[at + 4..at + 4 + length], at + 4 + length))
  }

  function Open(data: seq<Byte>): (r: Result<Index, IndexError>)
    ensures r.Ok? ==> r.value.Valid() && r.value.data == data
  {
    if |data| < MIN_FILE_SIZE then Err(TruncatedFile)
    else match DecodeHeader(data[..HEADER_SIZE])
      case Err(e) => Err(e)
      case Ok(header) => match ReadSection(data, HEADER_SIZE)
        case Err(e) => Err(e)
        case Ok((userMetadata, at)) => match ReadSection(data, at)
          case Err(e) => Err(e)
          case Ok((algoConfig, at)) =>
            var ramIndexEnd := at + Offset(header.numBlocks + 1, RAM_ENTRY_SIZE);
            if ramIndexEnd + FOOTER_SIZE > |data| then Err(CorruptedIndex)
            else
              var metadataRegionOffset := ramIndexEnd + Offset(header.totalKeys, header.EntrySize());
              Ok(Index(data, header, userMetadata, algoConfig, at, ramIndexEnd, metadataRegionOffset))
  }

  // Where the parts of an index lie.
  lemma Parts(c: Config, f: Footer, bs: seq<Block>)
    requires c.Valid() && Complete(c, bs)
    ensures var data := IndexWith(c, bs, f);
            && Has(data, 0, HeaderBytes(HeaderOf(c, c.totalKeys, c.numBlocks)))
            && Has(data, HEADER_SIZE, Section(c.userMetadata)) && Has(data, c.AlgoConfigOffset(), Section(c.algoConfig))
            && Has(data, c.RAMIndexOffset(), RAMBytes(RAMIndex(bs)))
            && Has(data, c.PayloadRegionOffset(), Payloads(bs)) && Has(data, c.MetadataRegionOffset(), Metadata(bs))
            && |data| == c.MetadataRegionOffset() + |Metadata(bs)| + FOOTER_SIZE
            && Has(data, c.MetadataRegionOffset() + |Metadata(bs)|, FooterBytes(f))
  {
    hide *;
    var header, ram := HeaderBytes(HeaderOf(c, c.totalKeys, c.numBlocks)), RAMBytes(RAMIndex(bs));
    var front := header + Section(c.userMetadata) + Section(c.algoConfig) + ram;
    var footer := FooterBytes(f);
    Sizes(c, f, bs);
    IndexShape(c, f, bs);
    Unfold4(IndexWith(c, bs, f), front, Payloads(bs), Metadata(bs), footer);
    Unfold4(IndexWith(c, bs, f), header, Section(c.userMetadata), Section(c.algoConfig), ram);
  }

  lemma Sizes(c: Config, f: Footer, bs: seq<Block>)
    requires c.Valid() && Complete(c, bs)
    ensures |HeaderBytes(HeaderOf(c, c.totalKeys, c.numBlocks))| == HEADER_SIZE == 64
    ensures HEADER_SIZE + |Section(c.userMetadata)| == c.AlgoConfigOffset()
    ensures c.AlgoConfigOffset() + |Section(c.algoConfig)| == c.RAMIndexOffset()
    ensures c.RAMIndexOffset() + |RAMBytes(RAMIndex(bs))| == c.PayloadRegionOffset()
    ensures c.PayloadRegionOffset() + |Payloads(bs)| == c.MetadataRegionOffset()
    ensures |FooterBytes(f)| == FOOTER_SIZE == 32
  {
    PayloadsSize(c, bs);
    FrontSizes(c);
    PayloadOffsetIs(c, c.totalKeys);
    MetadataRegionIs(c);
    hide HeaderBytes, Section, RAMBytes, Payloads, Metadata, FooterBytes, RAMIndex, Offset, Config.Valid,
      Config.AlgoConfigOffset, Config.RAMIndexOffset, Config.PayloadRegionOffset, Config.PayloadOffset;
  }

  lemma IndexShape(c: Config, f: Footer, bs: seq<Block>)
    requires c.Valid() && Complete(c, bs)
    ensures IndexWith(c, bs, f)
            == HeaderBytes(HeaderOf(c, c.totalKeys, c.numBlocks)) + Section(c.userMetadata) + Section(c.algoConfig)
               + RAMBytes(RAMIndex(bs)) + Payloads(bs) + Metadata(bs)
               + FooterBytes(f)
    ensures Has(IndexWith(c, bs, f), 0, IndexWith(c, bs, f))
  {
    hide HeaderBytes, Section, RAMBytes, Payloads, Metadata, FooterBytes, RAMIndex, HeaderOf, Keys;
  }

  lemma MetadataRegionIs(c: Config)
    ensures c.MetadataRegionOffset() == c.PayloadOffset(c.totalKeys) && HEADER_SIZE == 64 && FOOTER_SIZE == 32
  {
  }

  lemma Unfold4(f: seq<Byte>, a: seq<Byte>, b: seq<Byte>, c: seq<Byte>, d: seq<Byte>)
    requires Has(f, 0, a + b + c + d)
    ensures Has(f, 0, a) && Has(f, |a|, b) && Has(f, |a| + |b|, c) && Has(f, |a| + |b| + |c|, d)
  {
    hide Has;
    HasSplit(f, 0, a + b + c, d);
    HasSplit(f, 0, a + b, c);
    HasSplit(f, 0, a, b);
  }

  lemma {:induction false} PayloadsSize(c: Config, bs: seq<Block>)
    requires Sized(c, bs)
    ensures |Payloads(bs)| == Offset(Keys(bs), c.EntrySize())
  {
    if |bs| > 0 {
      var front, b := bs[..|bs| - 1], bs[|bs| - 1];
      PayloadsSize(c, front);
      Distribute(Keys(front), b.numKeys, c.EntrySize());
      hide Offset;
    }
  }

  lemma SectionRead(data: seq<Byte>, at: nat, section: seq<Byte>)
    requires Has(data, at, Section(section)) && |section| < Pow256(4)
    ensures ReadSection(data, at) == Ok((section, at + 4 + |section|))
  {
    HasSplit(data, at, PutLE(|section|, 4), section);
    GetPut(|section|, 4);
    hide PutLE, GetLE;
    assert |section| == 0 ==> data[at + 4..at + 4] == section;
  }

  ghost function Opened(c: Config, f: Footer, bs: seq<Block>): Index
    requires c.Valid()
  {
    Index(IndexWith(c, bs, f), HeaderOf(c, c.totalKeys, c.numBlocks), c.userMetadata, c.algoConfig,
          c.RAMIndexOffset(), c.PayloadRegionOffset(), c.MetadataRegionOffset())
  }

  lemma HeaderAcceptable(c: Config)
    requires c.Valid()
    ensures DecodeHeader(HeaderBytes(HeaderOf(c, c.totalKeys, c.numBlocks))) == Ok(HeaderOf(c, c.totalKeys, c.numBlocks))
  {
    Pow256Is(5);
    HeaderRoundTrip(HeaderOf(c, c.totalKeys, c.numBlocks));
  }

  /** A finished index opens, to the layout it was written with, exactly when it reaches the
      minimum size. */
  lemma FinishedOpens(c: Config, f: Footer, bs: seq<Block>)
    requires c.Valid() && Complete(c, bs)
    ensures Open(IndexWith(c, bs, f)) == Ok(Opened(c, f, bs)) <==> |IndexWith(c, bs, f)| >= MIN_FILE_SIZE
  {
    hide *;
    var data := IndexWith(c, bs, f);
    Parts(c, f, bs);
    Sizes(c, f, bs);
    HeaderAcceptable(c);
    PayloadOffsetIs(c, c.totalKeys);
    MetadataRegionIs(c);
    HeaderTaken(c, data);
    SectionFits(c);
    SectionRead(data, HEADER_SIZE, c.userMetadata);
    SectionRead(data, c.AlgoConfigOffset(), c.algoConfig);
    RAMSize(c, bs);
    OpenSteps(c, data);
    OpenedIs(c, f, bs);
  }

  lemma SectionFits(c: Config)
    requires c.Valid()
    ensures |c.userMetadata| < Pow256(4) && |c.algoConfig| < Pow256(4)
    ensures HEADER_SIZE + 4 + |c.userMetadata| == c.AlgoConfigOffset()
    ensures c.AlgoConfigOffset() + 4 + |c.algoConfig| == c.RAMIndexOffset()
    ensures c.RAMIndexOffset() + Offset(c.numBlocks + 1, RAM_ENTRY_SIZE) == c.PayloadRegionOffset()
  {
  }

  lemma RAMSize(c: Config, bs: seq<Block>)
    requires Complete(c, bs)
    ensures |RAMBytes(RAMIndex(bs))| == Offset(c.numBlocks + 1, RAM_ENTRY_SIZE)
  {
  }

  ghost function OpenedOn(c: Config, data: seq<Byte>): Index
    requires c.Valid()
  {
    Index(data, HeaderOf(c, c.totalKeys, c.numBlocks), c.userMetadata, c.algoConfig,
          c.RAMIndexOffset(), c.PayloadRegionOffset(), c.MetadataRegionOffset())
  }

  lemma OpenedIs(c: Config, f: Footer, bs: seq<Block>)
    requires c.Valid()
    ensures Opened(c, f, bs) == OpenedOn(c, IndexWith(c, bs, f))
  {
  }

  lemma OpenSteps(c: Config, data: seq<Byte>)
    requires c.Valid() && |data| >= HEADER_SIZE
    requires DecodeHeader(data[..HEADER_SIZE]) == Ok(HeaderOf(c, c.totalKeys, c.numBlocks))
    requires ReadSection(data, HEADER_SIZE) == Ok((c.userMetadata, c.AlgoConfigOffset()))
    requires ReadSection(data, c.AlgoConfigOffset()) == Ok((c.algoConfig, c.RAMIndexOffset()))
    requires c.RAMIndexOffset() + Offset(c.numBlocks + 1, RAM_ENTRY_SIZE) == c.PayloadRegionOffset()
    requires c.PayloadRegionOffset() + FOOTER_SIZE <= |data|
    ensures Open(data) == Ok(OpenedOn(c, data)) <==> |data| >= MIN_FILE_SIZE
  {
    PayloadOffsetIs(c, c.totalKeys);
    MetadataRegionIs(c);
    hide DecodeHeader, ReadSection, Config.AlgoConfigOffset, Config.RAMIndexOffset, Config.PayloadRegionOffset,
      Config.PayloadOffset, Offset, Config.MetadataRegionOffset, Config.Valid;
  }

  lemma HeaderTaken(c: Config, data: seq<Byte>)
    requires c.Valid() && Has(data, 0, HeaderBytes(HeaderOf(c, c.totalKeys, c.numBlocks)))
    ensures |data| >= HEADER_SIZE && data[..HEADER_SIZE] == HeaderBytes(HeaderOf(c, c.totalKeys, c.numBlocks))
  {
  }

  // ---------- The RAM index ----------

  lemma {:induction false} RAMIndexAt(bs: seq<Block>, i: nat)
    requires i <= |bs|
    ensures RAMIndex(bs)[i] == EntryAfter(bs[..i])
  {
    if i < |bs| {
      RAMIndexAt(bs[..|bs| - 1], i);
      assert bs[..|bs| - 1][..i] == bs[..i];
    } else {
      assert bs[..i] == bs;
    }
  }

  lemma {:induction false} MetadataMonotone(bs: seq<Block>, i: nat, j: nat)
    requires i <= j <= |bs|
    ensures |Metadata(bs[..i])| <= |Metadata(bs[..j])| && Metadata(bs[..j])[..|Metadata(bs[..i])|] == Metadata(bs[..i])
    decreases j
  {
    if i < j {
      MetadataMonotone(bs, i, j - 1);
      assert bs[..j][..j - 1] == bs[..j - 1];
    }
  }

  lemma OpenedValid(c: Config, f: Footer, bs: seq<Block>)
    requires c.Valid() && Complete(c, bs)
    ensures Opened(c, f, bs).Valid()
  {
    Parts(c, f, bs);
    Sizes(c, f, bs);
    SectionFits(c);
    PayloadOffsetIs(c, c.totalKeys);
    MetadataRegionIs(c);
    hide *;
    OpenedIs(c, f, bs);
    OpenedOnValid(c, IndexWith(c, bs, f));
  }

  lemma OpenedOnValid(c: Config, data: seq<Byte>)
    requires c.Valid() && c.PayloadRegionOffset() + FOOTER_SIZE <= |data|
    ensures OpenedOn(c, data).Valid()
  {
    SectionFits(c);
    PayloadOffsetIs(c, c.totalKeys);
    MetadataRegionIs(c);
    hide Config.AlgoConfigOffset, Config.RAMIndexOffset, Config.PayloadRegionOffset, Config.PayloadOffset, Offset;
  }

  // Block i's entry gives the keys and the metadata bytes before it.
  lemma EntryRead(c: Config, f: Footer, bs: seq<Block>, i: nat)
    requires c.Valid() && Complete(c, bs) && |Metadata(bs)| < Pow256(5) && i <= |bs|
    ensures Opened(c, f, bs).Valid() && i <= Opened(c, f, bs).header.numBlocks
    ensures Opened(c, f, bs).RAMEntryAt(i) == EntryAfter(bs[..i])
  {
    hide *;
    OpenedValid(c, f, bs);
    Parts(c, f, bs);
    EntryFits(c, bs, i);
    RAMBytesAt(RAMIndex(bs), i);
    RAMIndexAt(bs, i);
    RAMEntryRoundTrip(EntryAfter(bs[..i]));
    EntryBytesAt(IndexWith(c, bs, f), c.RAMIndexOffset(), RAMBytes(RAMIndex(bs)), RAM_ENTRY_SIZE * i);
    OpenedIs(c, f, bs);
    EntryTaken(c, IndexWith(c, bs, f), i, EntryAfter(bs[..i]));
  }

  lemma EntryTaken(c: Config, data: seq<Byte>, i: nat, e: RAMEntry)
    requires c.Valid() && OpenedOn(c, data).Valid() && i <= c.numBlocks
    requires var at := c.RAMIndexOffset() + RAM_ENTRY_SIZE * i;
             at + RAM_ENTRY_SIZE <= |data| && data[at..at + RAM_ENTRY_SIZE] == RAMEntryBytes(e)
    requires DecodeRAMEntry(RAMEntryBytes(e)) == e
    ensures OpenedOn(c, data).header.numBlocks == c.numBlocks && OpenedOn(c, data).RAMEntryAt(i) == e
  {
    assert Offset(i, RAM_ENTRY_SIZE) == RAM_ENTRY_SIZE * i;
    hide DecodeRAMEntry, Config.RAMIndexOffset, Config.PayloadRegionOffset, Config.MetadataRegionOffset, Index.Valid, GetLE, RAMEntryBytes;
  }

  lemma SubSlice<T>(s: seq<T>, from: nat, to: nat, a: nat, b: nat)
    requires from <= to <= |s| && a <= b <= to - from
    ensures s[from..to][a..b] == s[from + a..from + b]
  {
    var inner := s[from..to];
    forall i | 0 <= i < b - a ensures inner[a..b][i] == s[from + a..from + b][i] {
      assert inner[a..b][i] == inner[a + i] == s[from + (a + i)];
    }
    assert inner[a..b] == s[from + a..from + b];
  }

  lemma EntryFits(c: Config, bs: seq<Block>, i: nat)
    requires c.Valid() && Complete(c, bs) && |Metadata(bs)| < Pow256(5) && i <= |bs|
    ensures EntryAfter(bs[..i]).keysBefore < 0x100_0000_0000 && EntryAfter(bs[..i]).metadataOffset < 0x100_0000_0000
    ensures i <= c.numBlocks == |bs|
  {
    KeysMonotone(bs, i, |bs|);
    MetadataMonotone(bs, i, |bs|);
    assert bs[..|bs|] == bs;
    Pow256Is(5);
    hide Metadata, Keys, Pow256;
  }

  lemma EntryBytesAt(data: seq<Byte>, at: nat, table: seq<Byte>, k: nat)
    requires Has(data, at, table) && k + RAM_ENTRY_SIZE <= |table|
    ensures at + k + RAM_ENTRY_SIZE <= |data| && data[at + k..at + k + RAM_ENTRY_SIZE] == table[k..k + RAM_ENTRY_SIZE]
  {
    SubSlice(data, at, at + |table|, k, k + RAM_ENTRY_SIZE);
  }
}
