/** The index file byte by byte: which files open, and where a finished file keeps its parts. */
module FileLayout {
  import opened Basics
  import opened LittleEndian
  import opened Encoding
  import opened Files
  import opened IndexFormat
  import opened IndexWriter
  import opened IndexReader

  lemma Magic(s: seq<Byte>)
    requires |s| == 4
    ensures GetLE(s) == MAGIC <==> s == [0x48, 0x4D, 0x54, 0x53]
  {
    PutGet(s);
    PutGet([0x48, 0x4D, 0x54, 0x53]);
    MagicIs();
  }

  lemma MagicIs()
    ensures GetLE([0x48, 0x4D, 0x54, 0x53]) == MAGIC
  {
    var a: seq<Byte>, b: seq<Byte>, c: seq<Byte>, d: seq<Byte> := [0x48, 0x4D, 0x54, 0x53], [0x4D, 0x54, 0x53], [0x54, 0x53], [0x53];
    assert a[1..] == b && b[1..] == c && c[1..] == d && d[1..] == [];
    assert GetLE(d) == 0x53;
    assert GetLE(c) == 0x5354;
  }

  lemma Version(s: seq<Byte>)
    requires |s| == 2
    ensures GetLE(s) == VERSION <==> s == [1, 0]
  {
    PutGet(s);
    PutGet([1, 0]);
    assert GetLE([1, 0]) == 1 by {
      var a: seq<Byte>, b: seq<Byte> := [1, 0], [0];
      assert a[1..] == b && b[1..] == [];
    }
  }

  // A header that opening accepts, at the front of a file.
  predicate GoodHeader(data: seq<Byte>)
    requires |data| >= 304
  {
    && GetLE(data[18..22]) <= 8 && data[22] <= 4
    && (GetLE(data[14..18]) == 0 ==> GetLE(data[6..14]) == 0) && GetLE(data[14..18]) != 0xFFFF_FFFF
  }

  function HeaderAt(data: seq<Byte>): Header
    requires |data| >= 304
  {
    Header(GetLE(data[6..14]), GetLE(data[14..18]), GetLE(data[18..22]), data[22], GetLE(data[23..31]), GetLE(data[31..33]))
  }

  /** The header of any file is taken exactly when the file starts with the magic bytes and version 1
      and its fields are in bounds, and otherwise refused for the first of these that fails. */
  lemma HeaderExact(data: seq<Byte>)
    requires |data| >= 304
    ensures data[0..4] != [0x48, 0x4D, 0x54, 0x53] ==> DecodeHeader(data[..64]) == Err(InvalidMagic)
    ensures data[0..4] == [0x48, 0x4D, 0x54, 0x53] && data[4..6] != [1, 0] ==> DecodeHeader(data[..64]) == Err(InvalidVersion)
    ensures data[0..4] == [0x48, 0x4D, 0x54, 0x53] && data[4..6] == [1, 0] && !GoodHeader(data)
            ==> DecodeHeader(data[..64]) == Err(CorruptedIndex)
    ensures data[0..4] == [0x48, 0x4D, 0x54, 0x53] && data[4..6] == [1, 0] && GoodHeader(data)
            ==> DecodeHeader(data[..64]) == Ok(HeaderAt(data))
  {
    var buf := data[..64];
    assert buf[0..4] == data[0..4] && buf[4..6] == data[4..6] && buf[6..14] == data[6..14] && buf[14..18] == data[14..18];
    assert buf[18..22] == data[18..22] && buf[22] == data[22] && buf[23..31] == data[23..31] && buf[31..33] == data[31..33];
    Magic(data[0..4]);
    Version(data[4..6]);
    hide GetLE;
  }

  // The file holds both sections and, behind them, the block table and a footer.
  predicate HasTables(data: seq<Byte>, numBlocks: nat) {
    && 68 <= |data|
    && var a := 68 + GetLE(data[64..68]);
       && a + 4 <= |data|
       && var b := a + 4 + GetLE(data[a..a + 4]);
          b + 10 * (numBlocks + 1) + 32 <= |data|
  }

  // Where an opened index finds its parts.
  predicate Laid(data: seq<Byte>, idx: Index) {
    && |data| >= 304 && idx.header == HeaderAt(data) && idx.data == data
    && 68 + |idx.userMetadata| + 4 + |idx.algoConfig| <= |data|
    && data[68..68 + |idx.userMetadata|] == idx.userMetadata
    && data[72 + |idx.userMetadata|..72 + |idx.userMetadata| + |idx.algoConfig|] == idx.algoConfig
    && idx.ramIndexOffset == 72 + |idx.userMetadata| + |idx.algoConfig|
    && idx.payloadRegionOffset == idx.ramIndexOffset + 10 * (idx.header.numBlocks + 1)
    && idx.metadataRegionOffset == idx.payloadRegionOffset + idx.header.totalKeys * (idx.header.payloadSize + idx.header.fingerprintSize)
  }

  lemma TableSize(n: nat)
    ensures Offset(n, RAM_ENTRY_SIZE) == 10 * n
  {
  }

  lemma OpensLaid(data: seq<Byte>)
    ensures Open(data).Ok? ==> Laid(data, Open(data).value)
  {
    if |data| >= 304 {
      HeaderExact(data);
      TableSize(HeaderAt(data).numBlocks + 1);
    }
    hide DecodeHeader, GetLE;
  }

  /** Any file opens exactly when it has 304 bytes, a good header, and room for the sections and the
      table the header speaks of. */
  lemma OpensExactly(data: seq<Byte>)
    ensures |data| < 304 ==> Open(data) == Err(TruncatedFile)
    ensures |data| >= 304 && DecodeHeader(data[..64]).Err? ==> Open(data).Err? && Open(data).error == DecodeHeader(data[..64]).error
    ensures |data| >= 304 && DecodeHeader(data[..64]).Ok?
            ==> (Open(data).Ok? <==> HasTables(data, HeaderAt(data).numBlocks))
    ensures Open(data).Ok? ==> Laid(data, Open(data).value)
  {
    if |data| >= 304 {
      HeaderExact(data);
      TableSize(HeaderAt(data).numBlocks + 1);
    }
    OpensLaid(data);
    hide DecodeHeader, GetLE, Laid, HeaderAt;
  }

  lemma OffsetsAre(c: Config)
    ensures c.MetadataRegionOffset()
            == 64 + (4 + |c.userMetadata|) + (4 + |c.algoConfig|) + 10 * (c.numBlocks + 1) + c.totalKeys * (c.payloadSize + c.fingerprintSize)
    ensures c.PayloadRegionOffset() == 64 + (4 + |c.userMetadata|) + (4 + |c.algoConfig|) + 10 * (c.numBlocks + 1)
  {
    PayloadOffsetIs(c, c.totalKeys);
    MetadataRegionIs(c);
  }

  lemma FirstBytes(h: Header)
    requires h.fingerprintSize < 256
    ensures HeaderBytes(h)[0..4] == [0x48, 0x4D, 0x54, 0x53] && HeaderBytes(h)[4..6] == [1, 0]
  {
    hide *;
    HeaderFields(h, HeaderBytes(h));
    MagicBytes();
  }

  lemma MagicBytes()
    ensures PutLE(MAGIC, 4) == [0x48, 0x4D, 0x54, 0x53] && PutLE(VERSION, 2) == [1, 0]
  {
    assert PutLE(0x53, 1) == [0x53];
    assert PutLE(0x5354, 2) == [0x54, 0x53];
    assert PutLE(0x53544D, 3) == [0x4D, 0x54, 0x53];
    assert PutLE(0, 1) == [0];
  }

  lemma PrefixOf(data: seq<Byte>, header: seq<Byte>)
    requires Has(data, 0, header) && |header| == 64
    ensures |data| >= 64 && data[0..4] == header[0..4] && data[4..6] == header[4..6]
  {
    assert data[..64] == header;
    assert data[0..4] == data[..64][0..4] && data[4..6] == data[..64][4..6];
  }

  /** A finished file of N keys starts with the magic bytes and the version, and is as long as its
      header, its sections, ten bytes a block and ten more, the entries, the metadata and the footer. */
  lemma FinishedLayout(c: Config, f: Footer, bs: seq<Block>)
    requires c.Valid() && Complete(c, bs)
    ensures |IndexWith(c, bs, f)|
            == 64 + (4 + |c.userMetadata|) + (4 + |c.algoConfig|) + 10 * (c.numBlocks + 1)
               + c.totalKeys * (c.payloadSize + c.fingerprintSize) + |Metadata(bs)| + 32
    ensures |IndexWith(c, bs, f)| >= 64
    ensures IndexWith(c, bs, f)[0..4] == [0x48, 0x4D, 0x54, 0x53] && IndexWith(c, bs, f)[4..6] == [1, 0]
  {
    hide *;
    Parts(c, f, bs);
    Sizes(c, f, bs);
    OffsetsAre(c);
    ConfigHeader(c);
    FirstBytes(HeaderOf(c, c.totalKeys, c.numBlocks));
    PrefixOf(IndexWith(c, bs, f), HeaderBytes(HeaderOf(c, c.totalKeys, c.numBlocks)));
  }

  lemma ConfigHeader(c: Config)
    requires c.Valid()
    ensures HeaderOf(c, c.totalKeys, c.numBlocks).fingerprintSize < 256
  {
  }
}
