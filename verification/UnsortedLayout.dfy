/** The unsorted build's partitions: entries routed to regions of a writer's file, with a
    16-bit count for every block. */
module UnsortedLayout {
  import opened Basics
  import opened LittleEndian
  import opened Encoding
  import opened Files
  import opened Grouping
  import opened IndexFormat
  import opened Routing

  datatype Layout = Layout(numBlocks: nat, numPartitions: nat, blocksPerPart: nat, payloadSize: nat, regionSize: nat,
                           bufferCap: nat, regionCap: nat) {
    predicate Valid() {
      && numBlocks > 0 && blocksPerPart > 0 && numPartitions > 0 && numBlocks <= Offset(numPartitions, blocksPerPart)
      && bufferCap > 0 && regionCap > 0 && payloadSize <= 8
    }

    function EntrySize(): nat { MIN_KEY_SIZE + payloadSize }

    function BlockOf(): Entry -> nat { BlockFn(numBlocks) }

    function PartOf(): Entry -> nat
      requires blocksPerPart > 0
    {
      (e: Entry) => Route(e.k0, numBlocks) / blocksPerPart
    }

    // Block `local` of partition p.
    function BlockAt(p: nat, local: nat): nat { Offset(p, blocksPerPart) + local }

    function RegionStart(p: nat): nat { Offset(p, regionSize) }
  }

  lemma PartInRange(l: Layout, e: Entry)
    requires l.Valid()
    ensures l.BlockOf()(e) < l.numBlocks && l.PartOf()(e) < l.numPartitions
    ensures l.BlockOf()(e) == l.BlockAt(l.PartOf()(e), l.BlockOf()(e) % l.blocksPerPart)
  {
    var b := l.BlockOf()(e);
    if b / l.blocksPerPart >= l.numPartitions {
      MulMonotone(l.numPartitions, b / l.blocksPerPart, l.blocksPerPart);
    }
  }

  // ---------- Entries on disk ----------

  function EntryToBytes(l: Layout, e: Entry): (r: seq<Byte>)
    ensures |r| == l.EntrySize()
  {
    PutLE(e.k0, 8) + PutLE(e.k1, 8) + PutLE(e.payload, l.payloadSize)
  }

  function EntryFromBytes(l: Layout, data: seq<Byte>): Entry
    requires |data| == l.EntrySize()
  {
    WordRange(data[16..]);
    Entry(Word(data[0..8]), Word(data[8..16]), if l.payloadSize > 0 && l.payloadSize <= 8 then GetLE(data[16..]) else 0)
  }

  lemma WordRange(s: seq<Byte>)
    ensures |s| <= 8 ==> GetLE(s) < 0x1_0000_0000_0000_0000
  {
    PutGet(s);
    Pow256Is(8);
    if |s| <= 8 {
      Pow256Monotone(|s|, 8);
    }
  }

  lemma {:induction false} Pow256Monotone(a: nat, b: nat)
    requires a <= b
    ensures Pow256(a) <= Pow256(b)
  {
    if a < b {
      Pow256Monotone(a, b - 1);
    }
  }

  // What an entry becomes on disk: without a payload field there is no payload.
  function Trim(l: Layout, e: Entry): Entry {
    if l.payloadSize == 0 then e.(payload := 0) else e
  }

  predicate Storable(l: Layout, e: Entry) { l.payloadSize > 0 ==> e.payload < Pow256(l.payloadSize) }

  /** An entry is read back as it was written. */
  lemma EntryRoundTrip(l: Layout, e: Entry)
    requires l.payloadSize <= 8 && Storable(l, e)
    ensures EntryFromBytes(l, EntryToBytes(l, e)) == Trim(l, e)
  {
    var data := EntryToBytes(l, e);
    assert data[0..8] == PutLE(e.k0, 8) && data[8..16] == PutLE(e.k1, 8) && data[16..] == PutLE(e.payload, l.payloadSize);
    Pow256Is(8);
    GetPut(e.k0, 8);
    GetPut(e.k1, 8);
    if l.payloadSize > 0 {
      GetPut(e.payload, l.payloadSize);
    }
    hide PutLE, GetLE, Pow256;
  }

  function Encoded(l: Layout, es: seq<Entry>): (r: seq<Byte>)
    ensures |r| == Offset(|es|, l.EntrySize())
  {
    if |es| == 0 then [] else Encoded(l, es[..|es| - 1]) + EntryToBytes(l, es[|es| - 1])
  }

  lemma {:induction false} EncodedAppend(l: Layout, a: seq<Entry>, b: seq<Entry>)
    ensures Encoded(l, a + b) == Encoded(l, a) + Encoded(l, b)
  {
    if |b| == 0 {
      assert a + b == a;
    } else {
      EncodedAppend(l, a, b[..|b| - 1]);
      assert (a + b)[..|a + b| - 1] == a + b[..|b| - 1];
    }
  }

  lemma {:induction false} EncodedAt(l: Layout, es: seq<Entry>, i: nat)
    requires i < |es|
    ensures Offset(i, l.EntrySize()) + l.EntrySize() <= |Encoded(l, es)|
    ensures EntryOf(Encoded(l, es), i, l.EntrySize()) == EntryToBytes(l, es[i])
  {
    var n := |es| - 1;
    OffsetFits(i, |es|, l.EntrySize());
    if i < n {
      EncodedAt(l, es[..n], i);
      OffsetFits(i, n, l.EntrySize());
      assert Encoded(l, es)[..|Encoded(l, es[..n])|] == Encoded(l, es[..n]);
      hide Offset, EntryToBytes;
    } else {
      hide EntryToBytes;
    }
  }

  // ---------- A writer's file ----------

  // The file, each partition's bytes used, and the block counts.
  datatype Disk = Disk(file: seq<Byte>, cursors: seq<nat>, counts: seq<seq<nat>>)

  ghost predicate Shaped(l: Layout, d: Disk) {
    && |d.cursors| == |d.counts| == l.numPartitions
    && forall p :: 0 <= p < l.numPartitions ==> |d.counts[p]| == l.blocksPerPart
  }

  // Partition p holds the entries `es`: their bytes, how many, and how many of each block,
  // modulo 2^16.
  ghost predicate HoldsPart(l: Layout, d: Disk, p: nat, es: seq<Entry>)
    requires Shaped(l, d) && p < l.numPartitions
  {
    && d.cursors[p] == Offset(|es|, l.EntrySize()) <= l.regionSize
    && Has(d.file, l.RegionStart(p), Encoded(l, es))
    && forall local :: 0 <= local < l.blocksPerPart ==> d.counts[p][local] == U16(|Group(l.BlockOf(), es, l.BlockAt(p, local))|)
  }

  ghost predicate Holds(l: Layout, d: Disk, flushed: seq<seq<Entry>>) {
    && Shaped(l, d) && |flushed| == l.numPartitions
    && forall p :: 0 <= p < l.numPartitions ==> HoldsPart(l, d, p, flushed[p])
  }

  // One more entry of a block is counted, in 16 bits.
  function Count(counts: seq<nat>, local: nat): (r: seq<nat>)
    ensures |r| == |counts|
  {
    if local < |counts| then counts[local := U16(counts[local] + 1)] else counts
  }

  function CountAll(l: Layout, counts: seq<nat>, es: seq<Entry>): (r: seq<nat>)
    requires l.blocksPerPart > 0
    ensures |r| == |counts|
  {
    if |es| == 0 then counts
    else Count(CountAll(l, counts, es[..|es| - 1]), l.BlockOf()(es[|es| - 1]) % l.blocksPerPart)
  }

  lemma {:induction false} CountsGroups(l: Layout, p: nat, counts: seq<nat>, before: seq<Entry>, es: seq<Entry>, local: nat)
    requires l.Valid() && |counts| == l.blocksPerPart && local < l.blocksPerPart
    requires counts[local] == U16(|Group(l.BlockOf(), before, l.BlockAt(p, local))|)
    requires forall i :: 0 <= i < |es| ==> l.PartOf()(es[i]) == p
    ensures CountAll(l, counts, es)[local] == U16(|Group(l.BlockOf(), before + es, l.BlockAt(p, local))|)
  {
    if |es| == 0 {
      assert before + es == before;
    } else {
      var front, last := es[..|es| - 1], es[|es| - 1];
      CountsGroups(l, p, counts, before, front, local);
      assert before + es == (before + front) + [last];
      GroupAppend(l.BlockOf(), before + front, last, l.BlockAt(p, local));
      PartInRange(l, last);
      U16Add(|Group(l.BlockOf(), before + front, l.BlockAt(p, local))|, 1);
      hide Group, U16, Offset, Route;
    }
  }

  // What flushing partition p's entries does; None if the region overflows.
  function FlushPart(l: Layout, d: Disk, p: nat, es: seq<Entry>): Option<Disk>
    requires l.blocksPerPart > 0 && p < |d.cursors| && p < |d.counts|
  {
    var needed := Offset(|es|, l.EntrySize());
    if d.cursors[p] + needed > l.regionSize then None
    else Some(Disk(WriteAt(d.file, l.RegionStart(p) + d.cursors[p], Encoded(l, es)),
                   d.cursors[p := d.cursors[p] + needed],
                   d.counts[p := CountAll(l, d.counts[p], es)]))
  }

  lemma RegionsApart(l: Layout, p: nat, q: nat)
    requires p < q
    ensures l.RegionStart(p) + l.regionSize <= l.RegionStart(q)
  {
    OffsetFits(p, q, l.regionSize);
  }

  lemma FlushedPart(l: Layout, d: Disk, p: nat, before: seq<Entry>, es: seq<Entry>)
    requires l.Valid() && Shaped(l, d) && p < l.numPartitions && HoldsPart(l, d, p, before)
    requires forall i :: 0 <= i < |es| ==> l.PartOf()(es[i]) == p
    requires FlushPart(l, d, p, es).Some?
    ensures Shaped(l, FlushPart(l, d, p, es).value)
    ensures HoldsPart(l, FlushPart(l, d, p, es).value, p, before + es)
  {
    var after := FlushPart(l, d, p, es).value;
    var at := l.RegionStart(p) + d.cursors[p];
    EncodedAppend(l, before, es);
    Spread(|before|, |es|, l.EntrySize());
    forall local | 0 <= local < l.blocksPerPart
      ensures after.counts[p][local] == U16(|Group(l.BlockOf(), before + es, l.BlockAt(p, local))|)
    {
      CountsGroups(l, p, d.counts[p], before, es, local);
    }
    WriteApart(d.file, at, Encoded(l, es), l.RegionStart(p), Encoded(l, before));
    WriteHas(d.file, at, Encoded(l, es));
    hide Has, WriteAt, Encoded, Group, Offset, CountAll, U16;
    HasJoin(after.file, l.RegionStart(p), Encoded(l, before), Encoded(l, es));
  }

  lemma Spread(a: nat, b: nat, e: nat)
    ensures Offset(a + b, e) == Offset(a, e) + Offset(b, e)
  {
  }

  lemma OtherPartKept(l: Layout, d: Disk, p: nat, es: seq<Entry>, q: nat, kept: seq<Entry>)
    requires l.Valid() && Shaped(l, d) && p < l.numPartitions && q < l.numPartitions && p != q && HoldsPart(l, d, q, kept)
    requires FlushPart(l, d, p, es).Some?
    ensures Shaped(l, FlushPart(l, d, p, es).value) && HoldsPart(l, FlushPart(l, d, p, es).value, q, kept)
  {
    if p < q {
      RegionsApart(l, p, q);
    } else {
      RegionsApart(l, q, p);
    }
    WriteApart(d.file, l.RegionStart(p) + d.cursors[p], Encoded(l, es), l.RegionStart(q), Encoded(l, kept));
    hide Has, WriteAt, Encoded, Group, Offset, CountAll, U16;
  }

  /** A flush appends its entries to their partition, and touches no other. */
  lemma FlushHolds(l: Layout, d: Disk, flushed: seq<seq<Entry>>, p: nat, es: seq<Entry>)
    requires l.Valid() && Holds(l, d, flushed) && p < l.numPartitions
    requires forall i :: 0 <= i < |es| ==> l.PartOf()(es[i]) == p
    requires FlushPart(l, d, p, es).Some?
    ensures Holds(l, FlushPart(l, d, p, es).value, flushed[p := flushed[p] + es])
  {
    FlushedPart(l, d, p, flushed[p], es);
    hide HoldsPart, FlushPart;
    forall q | 0 <= q < l.numPartitions && q != p ensures HoldsPart(l, FlushPart(l, d, p, es).value, q, flushed[q]) {
      OtherPartKept(l, d, p, es, q, flushed[q]);
    }
  }

  function EmptyDisk(l: Layout, file: seq<Byte>): Disk {
    Disk(file, seq(l.numPartitions, _ => 0), seq(l.numPartitions, _ => seq(l.blocksPerPart, _ => 0)))
  }

  lemma EmptyHolds(l: Layout, file: seq<Byte>)
    ensures Holds(l, EmptyDisk(l, file), seq(l.numPartitions, _ => []))
  {
  }
}
