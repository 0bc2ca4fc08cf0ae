/** The fixed-width records of an index file: header, RAM index entries and footer. */
module IndexFormat {
  import opened Basics
  import opened LittleEndian
  import opened Encoding
  import opened Files

  const MAGIC: nat := 0x53544D48
  const VERSION: nat := 1
  const HEADER_SIZE: nat := 64
  const FOOTER_SIZE: nat := 32
  const RAM_ENTRY_SIZE: nat := 10
  const MAX_UINT32: nat := 0xFFFF_FFFF

  type UInt64 = x: nat | x < 0x1_0000_0000_0000_0000

  datatype IndexError = TruncatedFile | InvalidMagic | InvalidVersion | CorruptedIndex | NotFound | ChecksumFailed | KeyTooShort

  // ---------- Header ----------

  datatype Header = Header(totalKeys: nat, numBlocks: nat, payloadSize: nat, fingerprintSize: nat, seed: nat, algorithm: nat) {
    function EntrySize(): nat { payloadSize + fingerprintSize }

    // Every field fits its width.
    predicate Fits() {
      && totalKeys < Pow256(8) && numBlocks < Pow256(4) && payloadSize < Pow256(4) && fingerprintSize < 256
      && seed < Pow256(8) && algorithm < Pow256(2)
    }
  }

  function HeaderBytes(h: Header): (r: seq<Byte>)
    requires h.fingerprintSize < 256
    ensures |r| == HEADER_SIZE
  {
    PutLE(MAGIC, 4) + PutLE(VERSION, 2) + PutLE(h.totalKeys, 8) + PutLE(h.numBlocks, 4) + PutLE(h.payloadSize, 4)
    + [h.fingerprintSize] + PutLE(h.seed, 8) + PutLE(h.algorithm, 2) + Zeros(31)
  }

  function DecodeHeader(buf: seq<Byte>): Result<Header, IndexError> {
    if |buf| < HEADER_SIZE then Err(TruncatedFile)
    else
      var h := Header(GetLE(buf[6..14]), GetLE(buf[14..18]), GetLE(buf[18..22]), buf[22], GetLE(buf[23..31]), GetLE(buf[31..33]));
      if GetLE(buf[0..4]) != MAGIC then Err(InvalidMagic)
      else if GetLE(buf[4..6]) != VERSION then Err(InvalidVersion)
      else if h.payloadSize > MAX_PAYLOAD_SIZE then Err(CorruptedIndex)
      else if h.fingerprintSize > MAX_FINGERPRINT_SIZE then Err(CorruptedIndex)
      else if h.numBlocks == 0 && h.totalKeys > 0 then Err(CorruptedIndex)
      else if h.numBlocks == MAX_UINT32 then Err(CorruptedIndex)
      else Ok(h)
  }

  // What the decoder lets through.
  predicate Acceptable(h: Header) {
    && h.payloadSize <= MAX_PAYLOAD_SIZE && h.fingerprintSize <= MAX_FINGERPRINT_SIZE
    && (h.numBlocks == 0 ==> h.totalKeys == 0) && h.numBlocks != MAX_UINT32
  }

  lemma HeaderFields(h: Header, buf: seq<Byte>)
    requires h.fingerprintSize < 256 && buf == HeaderBytes(h)
    ensures buf[0..4] == PutLE(MAGIC, 4) && buf[4..6] == PutLE(VERSION, 2) && buf[6..14] == PutLE(h.totalKeys, 8)
    ensures buf[14..18] == PutLE(h.numBlocks, 4) && buf[18..22] == PutLE(h.payloadSize, 4) && buf[22] == h.fingerprintSize
    ensures buf[23..31] == PutLE(h.seed, 8) && buf[31..33] == PutLE(h.algorithm, 2)
  {
    hide PutLE, Zeros;
  }

  /** A header that fits its fields is read back, exactly when it is one the decoder accepts. */
  lemma HeaderRoundTrip(h: Header)
    requires h.Fits()
    ensures DecodeHeader(HeaderBytes(h)) == Ok(h) <==> Acceptable(h)
  {
    HeaderFields(h, HeaderBytes(h));
    assert Pow256(4) > MAGIC && Pow256(2) > VERSION by {
      assert Pow256(2) == 0x1_0000;
      assert Pow256(4) == 0x1_0000_0000;
    }
    GetPut(MAGIC, 4);
    GetPut(VERSION, 2);
    GetPut(h.totalKeys, 8);
    GetPut(h.numBlocks, 4);
    GetPut(h.payloadSize, 4);
    GetPut(h.seed, 8);
    GetPut(h.algorithm, 2);
    hide PutLE, GetLE, HeaderBytes;
  }

  // ---------- RAM index ----------

  datatype RAMEntry = RAMEntry(keysBefore: nat, metadataOffset: nat)

  function RAMEntryBytes(e: RAMEntry): (r: seq<Byte>)
    ensures |r| == RAM_ENTRY_SIZE
  {
    PutLE(e.keysBefore, 5) + PutLE(e.metadataOffset, 5)
  }

  function DecodeRAMEntry(buf: seq<Byte>): RAMEntry
    requires |buf| >= RAM_ENTRY_SIZE
  {
    RAMEntry(GetLE(buf[0..5]), GetLE(buf[5..10]))
  }

  lemma Pow256Is(n: nat)
    ensures Pow256(2) == 0x1_0000 && Pow256(4) == 0x1_0000_0000 && Pow256(5) == 0x100_0000_0000
    ensures Pow256(8) == 0x1_0000_0000_0000_0000
  {
    assert Pow256(2) == 0x1_0000;
    assert Pow256(4) == 0x1_0000_0000;
    assert Pow256(5) == 0x100_0000_0000;
    assert Pow256(6) == 0x1_0000_0000_0000;
  }

  /** The 40-bit entry is read back exactly when both values fit 40 bits. */
  lemma RAMEntryRoundTrip(e: RAMEntry)
    ensures DecodeRAMEntry(RAMEntryBytes(e)) == e <==> e.keysBefore < 0x100_0000_0000 && e.metadataOffset < 0x100_0000_0000
  {
    var buf := RAMEntryBytes(e);
    var a, b := PutLE(e.keysBefore, 5), PutLE(e.metadataOffset, 5);
    assert buf[0..5] == a && buf[5..10] == b;
    Pow256Is(5);
    PutGet(a);
    PutGet(b);
    hide PutLE, GetLE, Pow256;
    if e.keysBefore < 0x100_0000_0000 && e.metadataOffset < 0x100_0000_0000 {
      GetPut(e.keysBefore, 5);
      GetPut(e.metadataOffset, 5);
    }
  }

  // Byte by byte into the buffer, the low five bytes of each value.
  method EncodeRAMIndexEntryTo(e: RAMEntry, buf: array<Byte>, at: nat)
    requires at + RAM_ENTRY_SIZE <= buf.Length
    modifies buf
    ensures Stored(old(buf[..]), buf[..], at, RAMEntryBytes(e))
  {
    ghost var before := buf[..];
    WriteField(buf, at, e.keysBefore, 5);
    ghost var between := buf[..];
    WriteField(buf, at + 5, e.metadataOffset, 5);
    hide Stored, PutLE;
    StoredTwice(before, between, buf[..], at, PutLE(e.keysBefore, 5), PutLE(e.metadataOffset, 5));
  }

  function RAMBytes(entries: seq<RAMEntry>): (r: seq<Byte>)
    ensures |r| == Offset(|entries|, RAM_ENTRY_SIZE)
  {
    if |entries| == 0 then []
    else RAMBytes(entries[..|entries| - 1]) + RAMEntryBytes(entries[|entries| - 1])
  }

  // Entry i of the table, as bytes.
  lemma {:induction false} RAMBytesAt(entries: seq<RAMEntry>, i: nat)
    requires i < |entries|
    ensures RAM_ENTRY_SIZE * i + RAM_ENTRY_SIZE <= |RAMBytes(entries)|
    ensures RAMBytes(entries)[RAM_ENTRY_SIZE * i..RAM_ENTRY_SIZE * i + RAM_ENTRY_SIZE] == RAMEntryBytes(entries[i])
  {
    hide RAMEntryBytes;
    var n := |entries| - 1;
    var whole, front := RAMBytes(entries), RAMBytes(entries[..n]);
    if i < n {
      RAMBytesAt(entries[..n], i);
      assert whole[..|front|] == front;
      assert whole[RAM_ENTRY_SIZE * i..RAM_ENTRY_SIZE * i + RAM_ENTRY_SIZE]
          == whole[..|front|][RAM_ENTRY_SIZE * i..RAM_ENTRY_SIZE * i + RAM_ENTRY_SIZE];
    } else {
      assert whole[|front|..] == RAMEntryBytes(entries[n]);
    }
  }

  // ---------- Footer ----------

  datatype Footer = Footer(payloadRegionHash: nat, metadataRegionHash: nat)

  function FooterBytes(f: Footer): (r: seq<Byte>)
    ensures |r| == FOOTER_SIZE
  {
    PutLE(f.payloadRegionHash, 8) + PutLE(f.metadataRegionHash, 8) + Zeros(16)
  }

  function DecodeFooter(buf: seq<Byte>): Result<Footer, IndexError> {
    if |buf| < FOOTER_SIZE then Err(TruncatedFile)
    else Ok(Footer(GetLE(buf[0..8]), GetLE(buf[8..16])))
  }

  lemma FooterRoundTrip(f: Footer)
    requires f.payloadRegionHash < Pow256(8) && f.metadataRegionHash < Pow256(8)
    ensures DecodeFooter(FooterBytes(f)) == Ok(f)
  {
    var buf := FooterBytes(f);
    assert buf[0..8] == PutLE(f.payloadRegionHash, 8) && buf[8..16] == PutLE(f.metadataRegionHash, 8);
    GetPut(f.payloadRegionHash, 8);
    GetPut(f.metadataRegionHash, 8);
  }
}
