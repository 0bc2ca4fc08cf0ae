/** The unsorted build's read phase: a partition read back in chunks from all writers' files
    and scattered to its blocks. */
module UnsortedReader {
  import opened Basics
  import opened LittleEndian
  import opened Encoding
  import opened Files
  import opened Grouping
  import opened IndexFormat
  import opened Routing
  import opened UnsortedLayout

  // ---------- Chunked reading ----------

  // The first n records of `size` bytes at `offset`.
  function Records(file: seq<Byte>, offset: nat, size: nat, n: nat): (r: seq<seq<Byte>>)
    requires offset + Offset(n, size) <= |file|
    ensures |r| == n
    ensures forall i :: 0 <= i < n ==> |r[i]| == size
  {
    if n == 0 then []
    else
      Spread(n - 1, 1, size);
      Records(file, offset, size, n - 1) + [file[offset + Offset(n - 1, size)..offset + Offset(n, size)]]
  }

  // `done` records are taken and the next bytes up to `pos` are in the buffer's first `left` places.
  ghost predicate Carried(file: seq<Byte>, offset: nat, size: nat, done: nat, buf: seq<Byte>, left: nat, pos: nat) {
    && pos == offset + Offset(done, size) + left <= |file|
    && left <= |buf| && buf[..left] == file[pos - left..pos]
  }

  lemma CarriedRead(file: seq<Byte>, offset: nat, size: nat, done: nat, buf: seq<Byte>, left: nat, pos: nat, n: nat, after: seq<Byte>)
    requires Carried(file, offset, size, done, buf, left, pos) && left + n <= |buf| == |after| && pos + n <= |file|
    requires after == buf[..left] + file[pos..pos + n] + buf[left + n..]
    ensures Carried(file, offset, size, done, after, left + n, pos + n)
  {
    assert after[..left + n] == buf[..left] + file[pos..pos + n];
    assert file[pos - left..pos + n] == file[pos - left..pos] + file[pos..pos + n];
  }

  // Taking one record from the front of the bytes at hand.
  lemma CarriedTake(file: seq<Byte>, offset: nat, size: nat, done: nat, data: seq<Byte>, pos: nat)
    requires size <= |data| && pos == offset + Offset(done, size) + |data| <= |file| && data == file[pos - |data|..pos]
    ensures offset + Offset(done + 1, size) <= |file|
    ensures Records(file, offset, size, done + 1) == Records(file, offset, size, done) + [data[..size]]
    ensures pos == offset + Offset(done + 1, size) + |data[size..]| && data[size..] == file[pos - |data[size..]|..pos]
  {
    Spread(done, 1, size);
    assert Offset(1, size) == size;
    assert data[..size] == file[offset + Offset(done, size)..offset + Offset(done + 1, size)];
  }

  /** Reads a region of whole records in chunks of the buffer, records across chunk ends
      included, and hands over each record once, in order. A short read is an error. */
  method ReadRegion(file: seq<Byte>, offset: nat, regionBytes: nat, readBuf: array<Byte>, size: nat)
    returns (ok: bool, records: seq<seq<Byte>>)
    requires 0 < size <= readBuf.Length
    modifies readBuf
    ensures ok <==> regionBytes == 0 || offset + regionBytes <= |file|
    ensures ok && regionBytes > 0 ==>
              && offset + Offset(regionBytes / size, size) <= |file|
              && records == Records(file, offset, size, regionBytes / size)
    ensures regionBytes == 0 ==> records == []
  {
    hide Carried, Offset, Records;
    records := [];
    var pos: nat, remaining: nat, leftover: nat := offset, regionBytes, 0;
    if remaining == 0 {
      return true, [];
    }
    if offset > |file| {
      return false, [];
    }
    Started(file, offset, size, readBuf[..]);
    while remaining > 0
      invariant pos + remaining == offset + regionBytes && pos <= |file|
      invariant leftover < size && offset + Offset(|records|, size) <= |file|
      invariant Carried(file, offset, size, |records|, readBuf[..], leftover, pos)
      invariant records == Records(file, offset, size, |records|)
    {
      var toRead: nat := if readBuf.Length - leftover < remaining then readBuf.Length - leftover else remaining;
      if pos + toRead > |file| {
        return false, records;
      }
      ghost var before := readBuf[..];
      Fill(readBuf, leftover, file[pos..pos + toRead]);
      CarriedRead(file, offset, size, |records|, before, leftover, pos, toRead, readBuf[..]);
      pos, remaining := pos + toRead, remaining - toRead;
      records, leftover := TakeRecords(file, offset, size, readBuf, leftover + toRead, pos, records);
    }
    LastRecord(file, offset, size, |records|, readBuf[..], leftover, pos, regionBytes);
    ok := true;
  }

  lemma Started(file: seq<Byte>, offset: nat, size: nat, buf: seq<Byte>)
    requires offset <= |file|
    ensures Carried(file, offset, size, 0, buf, 0, offset) && Offset(0, size) == 0
    ensures Records(file, offset, size, 0) == []
  {
  }

  lemma LastRecord(file: seq<Byte>, offset: nat, size: nat, done: nat, buf: seq<Byte>, left: nat, pos: nat, regionBytes: nat)
    requires Carried(file, offset, size, done, buf, left, pos) && left < size && pos == offset + regionBytes
    ensures done == regionBytes / size
  {
    DivUnique(regionBytes, size, done, left);
  }

  method Fill(buf: array<Byte>, at: nat, bytes: seq<Byte>)
    requires at + |bytes| <= buf.Length
    modifies buf
    ensures buf[..] == old(buf[..at]) + bytes + old(buf[at + |bytes|..])
  {
    for i := 0 to |bytes|
      invariant buf[..at] == old(buf[..at]) && buf[at..at + i] == bytes[..i] && buf[at + i..] == old(buf[at + i..])
    {
      buf[at + i] := bytes[i];
    }
    assert buf[..] == buf[..at] + buf[at..at + |bytes|] + buf[at + |bytes|..];
  }

  // Takes the whole records in the first n bytes of the buffer and moves the rest to its front.
  method TakeRecords(file: seq<Byte>, offset: nat, size: nat, buf: array<Byte>, n: nat, pos: nat, before: seq<seq<Byte>>)
    returns (records: seq<seq<Byte>>, leftover: nat)
    requires 0 < size && n <= buf.Length && offset + Offset(|before|, size) <= |file|
    requires Carried(file, offset, size, |before|, buf[..], n, pos) && before == Records(file, offset, size, |before|)
    modifies buf
    ensures leftover < size && offset + Offset(|records|, size) <= |file|
    ensures Carried(file, offset, size, |records|, buf[..], leftover, pos)
    ensures records == Records(file, offset, size, |records|)
  {
    var data := buf[..n];
    records := before;
    while |data| >= size
      invariant offset + Offset(|records|, size) <= |file|
      invariant pos == offset + Offset(|records|, size) + |data| <= |file| && data == file[pos - |data|..pos]
      invariant records == Records(file, offset, size, |records|) && |data| <= n
    {
      hide Records, Offset, Carried;
      CarriedTake(file, offset, size, |records|, data, pos);
      records := records + [data[..size]];
      data := data[size..];
    }
    leftover := |data|;
    Fill(buf, 0, data);
    assert buf[..][..leftover] == data;
  }

  // ---------- Records as entries ----------

  function Decode(l: Layout, records: seq<seq<Byte>>): (r: seq<Entry>)
    requires forall i :: 0 <= i < |records| ==> |records[i]| == l.EntrySize()
    ensures |r| == |records|
  {
    seq(|records|, i requires 0 <= i < |records| => EntryFromBytes(l, records[i]))
  }

  function TrimAll(l: Layout, es: seq<Entry>): (r: seq<Entry>)
    ensures |r| == |es|
  {
    seq(|es|, i requires 0 <= i < |es| => Trim(l, es[i]))
  }

  ghost predicate AllStorable(l: Layout, es: seq<Entry>) {
    forall i :: 0 <= i < |es| ==> Storable(l, es[i])
  }

  lemma {:induction false} RecordAt(file: seq<Byte>, offset: nat, size: nat, n: nat, i: nat)
    requires offset + Offset(n, size) <= |file| && i < n
    ensures offset + Offset(i, size) + size <= |file|
    ensures Records(file, offset, size, n)[i] == file[offset + Offset(i, size)..offset + Offset(i, size) + size]
  {
    Spread(i, 1, size);
    OffsetFits(i, n, size);
    if i < n - 1 {
      Spread(n - 1, 1, size);
      RecordAt(file, offset, size, n - 1, i);
      hide Offset;
    }
  }

  /** Reading back what a partition holds gives its entries. */
  lemma PartitionReadsBack(l: Layout, d: Disk, p: nat, es: seq<Entry>)
    requires l.Valid() && Shaped(l, d) && p < l.numPartitions && HoldsPart(l, d, p, es) && AllStorable(l, es) && |es| > 0
    ensures d.cursors[p] / l.EntrySize() == |es| && d.cursors[p] > 0
    ensures l.RegionStart(p) + Offset(|es|, l.EntrySize()) <= |d.file|
    ensures Decode(l, Records(d.file, l.RegionStart(p), l.EntrySize(), |es|)) == TrimAll(l, es)
  {
    var size, at := l.EntrySize(), l.RegionStart(p);
    PartitionLength(l, d, p, es);
    var records := Records(d.file, at, size, |es|);
    forall i | 0 <= i < |es| ensures EntryFromBytes(l, records[i]) == Trim(l, es[i]) {
      RecordDecodes(l, d.file, at, es, i);
    }
    hide Offset, EntryFromBytes, Records, Encoded, Has, Trim, HoldsPart, Shaped, Layout.Valid;
  }

  lemma PartitionLength(l: Layout, d: Disk, p: nat, es: seq<Entry>)
    requires Shaped(l, d) && p < l.numPartitions && HoldsPart(l, d, p, es) && |es| > 0
    ensures d.cursors[p] == Offset(|es|, l.EntrySize()) > 0 && d.cursors[p] / l.EntrySize() == |es|
    ensures l.RegionStart(p) + Offset(|es|, l.EntrySize()) <= |d.file| && Has(d.file, l.RegionStart(p), Encoded(l, es))
  {
    DivUnique(Offset(|es|, l.EntrySize()), l.EntrySize(), |es|, 0);
    assert |Encoded(l, es)| > 0 by { MulMonotone(1, |es|, l.EntrySize()); }
    hide Group, Encoded;
  }

  lemma RecordDecodes(l: Layout, file: seq<Byte>, at: nat, es: seq<Entry>, i: nat)
    requires l.Valid() && i < |es| && AllStorable(l, es)
    requires Has(file, at, Encoded(l, es)) && at + Offset(|es|, l.EntrySize()) <= |file|
    ensures EntryFromBytes(l, Records(file, at, l.EntrySize(), |es|)[i]) == Trim(l, es[i])
  {
    var size := l.EntrySize();
    assert Storable(l, es[i]);
    hide *;
    LayoutSize(l);
    RecordAt(file, at, size, |es|, i);
    EncodedAt(l, es, i);
    EntryOfIs(Encoded(l, es), i, size);
    EncodedSlice(file, at, Encoded(l, es), Offset(i, size), size);
    EntryRoundTrip(l, es[i]);
  }

  lemma LayoutSize(l: Layout)
    requires l.Valid()
    ensures l.payloadSize <= 8 && l.EntrySize() > 0
  {
  }

  lemma EntryOfIs(buf: seq<Byte>, i: nat, size: nat)
    requires Offset(i, size) + size <= |buf|
    ensures EntryOf(buf, i, size) == buf[Offset(i, size)..Offset(i, size) + size]
  {
  }

  lemma EncodedSlice(file: seq<Byte>, at: nat, bytes: seq<Byte>, k: nat, size: nat)
    requires Has(file, at, bytes) && k + size <= |bytes| && |bytes| > 0
    ensures at + k + size <= |file| && file[at + k..at + k + size] == bytes[k..k + size]
  {
    var inner, piece := file[at..at + |bytes|], file[at + k..at + k + size];
    forall i | 0 <= i < size ensures piece[i] == bytes[k..k + size][i] {
      assert inner[k + i] == file[at + (k + i)];
    }
  }
}
