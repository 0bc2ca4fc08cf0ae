/** The unsorted build's write phase: entries collected by partition in one buffer while the
    other is flushed to the writer's file. */
module UnsortedWriter {
  import opened Basics
  import opened LittleEndian
  import opened Encoding
  import opened Files
  import opened Grouping
  import opened IndexFormat
  import opened Routing
  import opened UnsortedLayout

  // A flat array of entries with a stretch of regionCap places for every partition.
  class FlatBuffer {
    const l: Layout
    const data: array<Entry>
    const cursors: array<nat>

    constructor (l: Layout)
      requires l.Valid()
      ensures this.l == l && Valid() && fresh(data) && fresh(cursors) && Empty()
    {
      this.l := l;
      data := new Entry[l.regionCap * l.numPartitions](_ => Entry(0, 0, 0));
      cursors := new nat[l.numPartitions](_ => 0);
      new;
      assert data.Length == Offset(l.numPartitions, l.regionCap);
    }

    ghost predicate Valid()
      reads cursors
    {
      && l.Valid() && data.Length == Offset(l.numPartitions, l.regionCap) && cursors.Length == l.numPartitions
      && forall p :: 0 <= p < l.numPartitions ==> cursors[p] <= l.regionCap
    }

    // The entries of partition p.
    function Part(p: nat): seq<Entry>
      requires p < cursors.Length && Offset(p, l.regionCap) + cursors[p] <= data.Length
      reads data, cursors
    {
      data[Offset(p, l.regionCap)..Offset(p, l.regionCap) + cursors[p]]
    }

    ghost function Parts(): (r: seq<seq<Entry>>)
      requires Valid()
      reads data, cursors
      ensures |r| == l.numPartitions
    {
      seq(l.numPartitions, p requires 0 <= p < l.numPartitions reads data, cursors requires Valid() => PartOf(p))
    }

    ghost function PartOf(p: nat): seq<Entry>
      requires Valid() && p < l.numPartitions
      reads data, cursors
    {
      OffsetFits(p, l.numPartitions, l.regionCap);
      Part(p)
    }

    ghost predicate Empty()
      requires Valid()
      reads data, cursors
    {
      forall p :: 0 <= p < l.numPartitions ==> cursors[p] == 0
    }

    method Clear()
      requires Valid()
      modifies cursors
      ensures Valid() && Empty()
    {
      for p := 0 to cursors.Length
        invariant forall q :: 0 <= q < p ==> cursors[q] == 0
        invariant forall q :: p <= q < l.numPartitions ==> cursors[q] <= l.regionCap
      {
        cursors[p] := 0;
      }
    }

    // Appends to partition p's stretch.
    method Put(p: nat, e: Entry)
      requires Valid() && p < l.numPartitions && cursors[p] < l.regionCap
      modifies data, cursors
      ensures Valid() && Parts() == old(Parts())[p := old(Parts())[p] + [e]]
    {
      OffsetFits(p, l.numPartitions, l.regionCap);
      ghost var before := Parts();
      data[p * l.regionCap + cursors[p]] := e;
      cursors[p] := cursors[p] + 1;
      forall q | 0 <= q < l.numPartitions ensures PartOf(q) == if q == p then before[p] + [e] else before[q] {
        OffsetFits(q, l.numPartitions, l.regionCap);
        if q < p {
          OffsetFits(q, p, l.regionCap);
        } else if p < q {
          OffsetFits(p, q, l.regionCap);
        }
      }
    }
  }

  // ---------- Where the entries are ----------

  function Nothing(n: nat): (r: seq<seq<Entry>>)
    ensures |r| == n && forall p :: 0 <= p < n ==> r[p] == []
  {
    seq(n, _ => [])
  }

  /** Every entry added is in its partition, in the order added: on disk, in the buffer being
      flushed, or in the active one. */
  ghost predicate Collected(l: Layout, flushed: seq<seq<Entry>>, pending: seq<seq<Entry>>, active: seq<seq<Entry>>, added: seq<Entry>) {
    && l.Valid() && |flushed| == |pending| == |active| == l.numPartitions
    && forall p: nat :: p < l.numPartitions ==> flushed[p] + pending[p] + active[p] == Group(l.PartOf(), added, p)
  }

  // The first k partitions flushed.
  ghost function Joined(flushed: seq<seq<Entry>>, pending: seq<seq<Entry>>, k: nat): (r: seq<seq<Entry>>)
    requires |flushed| == |pending|
    ensures |r| == |flushed|
  {
    seq(|flushed|, p requires 0 <= p < |flushed| => if p < k then flushed[p] + pending[p] else flushed[p])
  }

  lemma CollectedAdd(l: Layout, flushed: seq<seq<Entry>>, pending: seq<seq<Entry>>, active: seq<seq<Entry>>, added: seq<Entry>, e: Entry)
    requires Collected(l, flushed, pending, active, added)
    ensures var p := l.PartOf()(e);
            p < l.numPartitions && Collected(l, flushed, pending, active[p := active[p] + [e]], added + [e])
  {
    PartInRange(l, e);
    var p := l.PartOf()(e);
    forall q: nat | q < l.numPartitions
      ensures flushed[q] + pending[q] + active[p := active[p] + [e]][q] == Group(l.PartOf(), added + [e], q)
    {
      GroupAppend(l.PartOf(), added, e, q);
      hide Group, Layout.Valid;
    }
  }

  lemma CollectedFlush(l: Layout, flushed: seq<seq<Entry>>, pending: seq<seq<Entry>>, active: seq<seq<Entry>>, added: seq<Entry>)
    requires Collected(l, flushed, pending, active, added)
    ensures Collected(l, Joined(flushed, pending, l.numPartitions), Nothing(l.numPartitions), active, added)
  {
    hide Group;
    var after := Joined(flushed, pending, l.numPartitions);
    forall p: nat | p < l.numPartitions
      ensures after[p] + Nothing(l.numPartitions)[p] + active[p] == Group(l.PartOf(), added, p)
    {
      assert after[p] + [] == flushed[p] + pending[p];
    }
  }

  lemma CollectedSwap(l: Layout, flushed: seq<seq<Entry>>, active: seq<seq<Entry>>, added: seq<Entry>)
    requires Collected(l, flushed, Nothing(l.numPartitions), active, added)
    ensures Collected(l, flushed, active, Nothing(l.numPartitions), added)
  {
    hide Group;
    forall p: nat | p < l.numPartitions
      ensures flushed[p] + active[p] + Nothing(l.numPartitions)[p] == Group(l.PartOf(), added, p)
    {
      assert flushed[p] + [] + active[p] == flushed[p] + active[p] + [];
    }
  }

  // The entries of a partition's stretch belong to the partition.
  lemma CollectedRouted(l: Layout, flushed: seq<seq<Entry>>, pending: seq<seq<Entry>>, active: seq<seq<Entry>>, added: seq<Entry>, p: nat)
    requires Collected(l, flushed, pending, active, added) && p < l.numPartitions
    ensures forall i :: 0 <= i < |pending[p]| ==> l.PartOf()(pending[p][i]) == p
    ensures forall i :: 0 <= i < |active[p]| ==> l.PartOf()(active[p][i]) == p
  {
    var all := Group(l.PartOf(), added, p);
    assert all == flushed[p] + pending[p] + active[p];
    forall i: nat | i < |all| ensures l.PartOf()(all[i]) == p {
      GroupMember(l.PartOf(), added, p, i);
    }
    hide Group, Layout.Valid, Collected;
    forall i | 0 <= i < |pending[p]| ensures l.PartOf()(pending[p][i]) == p {
      assert pending[p][i] == all[|flushed[p]| + i];
    }
    forall i | 0 <= i < |active[p]| ensures l.PartOf()(active[p][i]) == p {
      assert active[p][i] == all[|flushed[p]| + |pending[p]| + i];
    }
  }

  lemma CollectedDone(l: Layout, flushed: seq<seq<Entry>>, added: seq<Entry>)
    requires Collected(l, flushed, Nothing(l.numPartitions), Nothing(l.numPartitions), added)
    ensures l.Valid() && flushed == Groups(l.PartOf(), added, l.numPartitions)
  {
    hide Group;
    forall p | 0 <= p < l.numPartitions ensures flushed[p] == Group(l.PartOf(), added, p) {
      assert flushed[p] + [] + [] == flushed[p];
    }
  }

  // The entries can follow what a partition's region holds, and no write to it fails.
  ghost predicate WritableAt(l: Layout, flushed: seq<Entry>, es: seq<Entry>, p: nat, fails: set<nat>) {
    |es| > 0 ==> p !in fails && Offset(|flushed| + |es|, l.EntrySize()) <= l.regionSize
  }

  ghost predicate Writable(l: Layout, flushed: seq<seq<Entry>>, parts: seq<seq<Entry>>, fails: set<nat>) {
    |flushed| == |parts| && forall p: nat :: p < |parts| ==> WritableAt(l, flushed[p], parts[p], p, fails)
  }

  // Every partition's region has room for the partition's entries.
  ghost predicate Roomy(l: Layout, added: seq<Entry>) {
    l.Valid() && forall p: nat :: p < l.numPartitions ==> Offset(|Group(l.PartOf(), added, p)|, l.EntrySize()) <= l.regionSize
  }

  lemma OffsetUpTo(a: nat, b: nat, size: nat)
    requires a <= b
    ensures Offset(a, size) <= Offset(b, size)
  {
    MulMonotone(a, b, size);
  }

  // With room for everything added, no flush of part of it overflows.
  lemma RoomyWritable(l: Layout, flushed: seq<seq<Entry>>, pending: seq<seq<Entry>>, active: seq<seq<Entry>>, added: seq<Entry>)
    requires Collected(l, flushed, pending, active, added) && Roomy(l, added)
    ensures Writable(l, flushed, pending, {})
  {
    hide Group, Offset;
    forall p: nat | p < |pending| ensures WritableAt(l, flushed[p], pending[p], p, {}) {
      assert |Group(l.PartOf(), added, p)| == |flushed[p]| + |pending[p]| + |active[p]|;
      OffsetUpTo(|flushed[p]| + |pending[p]|, |Group(l.PartOf(), added, p)|, l.EntrySize());
    }
  }

  // Room for more is room for less.
  lemma RoomyBefore(l: Layout, added: seq<Entry>, e: Entry)
    requires Roomy(l, added + [e])
    ensures Roomy(l, added)
  {
    forall p: nat | p < l.numPartitions ensures Offset(|Group(l.PartOf(), added, p)|, l.EntrySize()) <= l.regionSize {
      GroupAppend(l.PartOf(), added, e, p);
      hide Group, Offset;
      OffsetUpTo(|Group(l.PartOf(), added, p)|, |Group(l.PartOf(), added + [e], p)|, l.EntrySize());
    }
  }

  // Every partition's pending entries are its own.
  ghost predicate AllRouted(l: Layout, parts: seq<seq<Entry>>)
    requires l.blocksPerPart > 0
  {
    forall p :: 0 <= p < |parts| ==> RoutedTo(l, parts[p], p)
  }

  ghost predicate RoutedTo(l: Layout, es: seq<Entry>, p: nat)
    requires l.blocksPerPart > 0
  {
    forall i :: 0 <= i < |es| ==> l.PartOf()(es[i]) == p
  }

  lemma CollectedAllRouted(l: Layout, flushed: seq<seq<Entry>>, pending: seq<seq<Entry>>, active: seq<seq<Entry>>, added: seq<Entry>)
    requires Collected(l, flushed, pending, active, added)
    ensures l.blocksPerPart > 0 && AllRouted(l, pending) && AllRouted(l, active)
  {
    assert l.blocksPerPart > 0;
    forall p | 0 <= p < l.numPartitions ensures RoutedTo(l, pending[p], p) && RoutedTo(l, active[p], p) {
      CollectedRouted(l, flushed, pending, active, added, p);
    }
  }

  lemma EmptyParts(b: FlatBuffer)
    requires b.Valid() && b.Empty()
    ensures b.Parts() == Nothing(b.l.numPartitions)
  {
    forall p | 0 <= p < b.l.numPartitions ensures b.Parts()[p] == [] {
      OffsetFits(p, b.l.numPartitions, b.l.regionCap);
    }
  }

  // ---------- Encoding ----------

  method EncodeEntry(l: Layout, buf: array<Byte>, pos: nat, e: Entry)
    requires pos + l.EntrySize() <= buf.Length
    modifies buf
    ensures Stored(old(buf[..]), buf[..], pos, EntryToBytes(l, e))
  {
    hide Stored, PutLE;
    ghost var b0 := buf[..];
    WriteField(buf, pos, e.k0, 8);
    ghost var b1 := buf[..];
    WriteField(buf, pos + 8, e.k1, 8);
    ghost var b2 := buf[..];
    StoredTwice(b0, b1, b2, pos, PutLE(e.k0, 8), PutLE(e.k1, 8));
    if l.payloadSize > 0 {
      WriteField(buf, pos + 16, e.payload, l.payloadSize);
      StoredTwice(b0, b2, buf[..], pos, PutLE(e.k0, 8) + PutLE(e.k1, 8), PutLE(e.payload, l.payloadSize));
    } else {
      assert PutLE(e.payload, 0) == [];
      assert PutLE(e.k0, 8) + PutLE(e.k1, 8) + [] == PutLE(e.k0, 8) + PutLE(e.k1, 8);
    }
  }

  lemma LocalBlock(l: Layout, e: Entry, p: nat)
    requires l.Valid() && l.PartOf()(e) == p
    ensures Route(e.k0, l.numBlocks) - Offset(p, l.blocksPerPart) == l.BlockOf()(e) % l.blocksPerPart
  {
    PartInRange(l, e);
  }

  // Encodes a partition's entries and counts their blocks, in one pass.
  method EncodePart(l: Layout, es: seq<Entry>, p: nat, counts: seq<nat>) returns (buf: array<Byte>, counted: seq<nat>)
    requires l.Valid() && RoutedTo(l, es, p)
    ensures fresh(buf) && buf[..] == Encoded(l, es) && counted == CountAll(l, counts, es)
  {
    hide Stored, EntryToBytes, Count, Route;
    buf := new Byte[|es| * l.EntrySize()];
    counted := counts;
    var i := 0;
    assert es[..0] == [];
    while i < |es|
      invariant i <= |es| && buf.Length == |es| * l.EntrySize()
      invariant Offset(i, l.EntrySize()) <= buf.Length && buf[..Offset(i, l.EntrySize())] == Encoded(l, es[..i])
      invariant counted == CountAll(l, counts, es[..i])
    {
      OffsetFits(i, |es|, l.EntrySize());
      ghost var before := buf[..];
      EncodeEntry(l, buf, i * l.EntrySize(), es[i]);
      StoredAppends(before, buf[..], 0, i * l.EntrySize(), Encoded(l, es[..i]), EntryToBytes(l, es[i]));
      LocalBlock(l, es[i], p);
      counted := Count(counted, Route(es[i].k0, l.numBlocks) - Offset(p, l.blocksPerPart));
      assert es[..i + 1][..i] == es[..i];
      Spread(i, 1, l.EntrySize());
      i := i + 1;
    }
    assert es[..i] == es && buf[..] == buf[..Offset(i, l.EntrySize())];
  }

  // ---------- The writer ----------

  class WriterState {
    const l: Layout
    const first: FlatBuffer
    const second: FlatBuffer
    var activeBuf: nat
    var totalBuffered: nat
    var flushing: bool     // a background flush of the other buffer is under way
    var flushErr: bool
    var everFlushed: bool
    var disk: Disk
    ghost var flushed: seq<seq<Entry>>
    ghost var added: seq<Entry>

    constructor (l: Layout, file: seq<Byte>)
      requires l.Valid()
      ensures this.l == l && Valid() && added == [] && !flushErr && !everFlushed
      ensures fresh(first.data) && fresh(first.cursors) && fresh(second.data) && fresh(second.cursors)
    {
      this.l := l;
      first := new FlatBuffer(l);
      second := new FlatBuffer(l);
      activeBuf, totalBuffered, flushing, flushErr, everFlushed := 0, 0, false, false, false;
      disk := EmptyDisk(l, file);
      flushed, added := Nothing(l.numPartitions), [];
      new;
      EmptyHolds(l, file);
      EmptyParts(first);
      EmptyParts(second);
      assert flushed == seq(l.numPartitions, _ => []);
    }

    function Active(): FlatBuffer
      reads `activeBuf
    {
      if activeBuf == 0 then first else second
    }

    function Other(): FlatBuffer
      reads `activeBuf
    {
      if activeBuf == 0 then second else first
    }

    ghost predicate Buffers()
      reads first.cursors, second.cursors
    {
      && first.l == second.l == l && first.Valid() && second.Valid()
      && first.data != second.data && first.cursors != second.cursors
    }

    ghost function Pending(): seq<seq<Entry>>
      requires Buffers()
      reads `activeBuf, `flushing, first.data, first.cursors, second.data, second.cursors
    {
      if flushing then Other().Parts() else Nothing(l.numPartitions)
    }

    ghost predicate Valid()
      reads this, first.data, first.cursors, second.data, second.cursors
    {
      && l.Valid() && Buffers()
      && (totalBuffered == 0 ==> Active().Empty())
      && (!flushErr ==> Holds(l, disk, flushed) && Collected(l, flushed, Pending(), Active().Parts(), added))
      && (!everFlushed ==> !flushing && !flushErr && flushed == Nothing(l.numPartitions))
    }

    // Encodes and writes one partition's entries.
    method FlushOne(p: nat, es: seq<Entry>, fails: set<nat>, ghost held: seq<seq<Entry>>) returns (ok: bool)
      requires l.Valid() && Holds(l, disk, held) && p < |held| == l.numPartitions && RoutedTo(l, es, p)
      modifies `disk
      ensures ok ==> Holds(l, disk, held[p := held[p] + es])
      ensures ok <==> WritableAt(l, held[p], es, p, fails)
    {
      hide *;
      HoldsLengths(l, disk, held);
      WritableIs(l, disk, held, p, es, fails);
      if |es| == 0 {
        assert held[p] + es == held[p];
        assert held[p := held[p]] == held;
        return true;
      }
      ValidLayout(l);
      var buf, counted := EncodePart(l, es, p, disk.counts[p]);
      var cursor := disk.cursors[p];
      var needed := Offset(|es|, l.EntrySize());
      if cursor + needed > l.regionSize || p in fails {
        return false;
      }
      ghost var before := disk;
      disk := Disk(WriteAt(disk.file, l.RegionStart(p) + cursor, buf[..]), disk.cursors[p := cursor + needed], disk.counts[p := counted]);
      FlushIs(l, before, p, es);
      RoutedIs(l, es, p);
      FlushHolds(l, before, held, p, es);
      ok := true;
    }

    // Encodes and writes every partition of a buffer. `fails` names the writes that fail.
    method DoFlush(b: FlatBuffer, fails: set<nat>) returns (ok: bool)
      requires l.Valid() && b.l == l && b.Valid() && Holds(l, disk, flushed) && AllRouted(l, b.Parts())
      modifies `disk
      ensures |flushed| == |b.Parts()| && (ok ==> Holds(l, disk, Joined(flushed, b.Parts(), l.numPartitions)))
      ensures ok <==> Writable(l, flushed, b.Parts(), fails)
    {
      hide *;
      ghost var parts := b.Parts();
      ValidLayout(l);
      HoldsLengths(l, disk, flushed);
      JoinedNone(flushed, parts);
      var p := 0;
      while p < l.numPartitions
        invariant p <= l.numPartitions == |flushed| == |parts|
        invariant Holds(l, disk, Joined(flushed, parts, p))
        invariant forall q: nat :: q < p ==> WritableAt(l, flushed[q], parts[q], q, fails)
      {
        PartIs(b, p);
        RoutedPart(l, parts, p);
        JoinedNext(flushed, parts, p);
        ok := FlushOne(p, b.Part(p), fails, Joined(flushed, parts, p));
        if !ok {
          NotWritable(l, flushed, parts, p, fails);
          return;
        }
        p := p + 1;
      }
      WritableIf(l, flushed, parts, fails);
      ok := true;
    }

    // The background goroutine: flushes the other buffer and keeps its error.
    method RunFlush(fails: set<nat>)
      requires Valid() && flushing && !flushErr
      modifies `disk, `flushing, `flushErr, `flushed
      ensures Valid() && !flushing
      ensures flushErr <==> !Writable(l, old(flushed), old(Pending()), fails)
    {
      hide *;
      ValidIs();
      BuffersOpen();
      PendingIs();
      ghost var pending, active := Pending(), Active().Parts();
      CollectedAllRouted(l, flushed, pending, active, added);
      CollectedFlush(l, flushed, pending, active, added);
      var other := Other();
      assert other.Parts() == pending;
      var ok := DoFlush(other, fails);
      BuffersOpen();
      assert other.Parts() == pending;
      assert Active().Parts() == active;
      if ok {
        flushed := Joined(flushed, pending, l.numPartitions);
      }
      flushing := false;
      flushErr := !ok;
      Flushed(ok);
    }

    lemma ValidIs()
      requires Valid()
      ensures l.Valid() && Buffers() && (totalBuffered == 0 ==> Active().Empty())
      ensures !flushErr ==> Holds(l, disk, flushed) && Collected(l, flushed, Pending(), Active().Parts(), added)
      ensures !everFlushed ==> !flushing && !flushErr && flushed == Nothing(l.numPartitions)
    {
    }

    lemma PendingIs()
      requires Buffers()
      ensures Pending() == if flushing then Other().Parts() else Nothing(l.numPartitions)
    {
    }

    // Waits for the background flush, swaps the buffers and starts the next one.
    method Flush(fails: set<nat>) returns (ok: bool)
      requires Valid()
      modifies this, first.cursors, second.cursors
      ensures Valid() && added == old(added) && ok == !flushErr
      ensures ok ==> Active().Empty()
      ensures ok <==> !old(flushErr) && (old(flushing) ==> Writable(l, old(flushed), old(Pending()), fails))
    {
      if flushing && !flushErr {
        RunFlush(fails);
      }
      if flushErr {
        return false;
      }
      if totalBuffered == 0 {
        return true;
      }
      Swap();
      ok := true;
    }

    method Swap()
      requires Valid() && !flushing && !flushErr
      modifies `everFlushed, `activeBuf, `totalBuffered, `flushing, first.cursors, second.cursors
      ensures Valid() && Active().Empty() && !flushErr
    {
      hide *;
      ValidIs();
      BuffersOpen();
      PendingIs();
      ghost var active := Active().Parts();
      CollectedSwap(l, flushed, active, added);
      everFlushed := true;
      SwapActive();
      BuffersOpen();
      PendingIs();
      EmptyParts(Active());
      Revalidated();
    }

    method SwapActive()
      requires Buffers()
      modifies `activeBuf, `totalBuffered, `flushing, first.cursors, second.cursors
      ensures Buffers() && Active().Empty() && Other().Parts() == old(Active().Parts()) && flushing && totalBuffered == 0
    {
      activeBuf := if activeBuf == 0 then 1 else 0;
      totalBuffered := 0;
      Active().Clear();
      flushing := true;
    }

    lemma Revalidated()
      requires l.Valid() && Buffers() && (totalBuffered == 0 ==> Active().Empty())
      requires !flushErr ==> Holds(l, disk, flushed) && Collected(l, flushed, Pending(), Active().Parts(), added)
      requires !everFlushed ==> !flushing && !flushErr && flushed == Nothing(l.numPartitions)
      ensures Valid()
    {
      hide Holds, Collected;
    }

    // Puts an entry into its partition of the active buffer.
    method Store(e: Entry)
      requires Valid() && l.PartOf()(e) < l.numPartitions && Active().cursors[l.PartOf()(e)] < l.regionCap
      modifies `totalBuffered, `added, first.data, second.data, first.cursors, second.cursors
      ensures Valid() && added == old(added) + [e]
    {
      hide *;
      ValidIs();
      BuffersOpen();
      if !flushErr {
        CollectedAdd(l, flushed, Pending(), Active().Parts(), added, e);
      }
      PutActive(l.PartOf()(e), e);
      totalBuffered := totalBuffered + 1;
      added := added + [e];
      BuffersOpen();
      Revalidated();
    }

    method PutActive(p: nat, e: Entry)
      requires Buffers() && p < l.numPartitions && Active().cursors[p] < l.regionCap
      modifies first.data, second.data, first.cursors, second.cursors
      ensures Buffers() && Pending() == old(Pending())
      ensures |Active().Parts()| == |old(Active().Parts())| == l.numPartitions
      ensures Active().Parts() == old(Active().Parts())[p := old(Active().Parts())[p] + [e]]
    {
      Active().Put(p, e);
    }

    /** Routes an entry to its partition, flushing when its stretch or the buffer is full. */
    method AddKey(e: Entry, fails: set<nat>) returns (ok: bool)
      requires Valid()
      modifies this, first.data, second.data, first.cursors, second.cursors
      ensures Valid() && (ok ==> added == old(added) + [e])
      ensures !ok ==> flushErr
      ensures !old(flushErr) && fails == {} && Roomy(l, old(added) + [e]) ==> ok
    {
      PartInRange(l, e);
      ghost var roomy := fails == {} && Roomy(l, added + [e]);
      if roomy {
        RoomyBefore(l, added, e);
      }
      hide Holds, Collected, Roomy, Writable;
      if Active().cursors[l.PartOf()(e)] >= l.regionCap {
        if roomy && !flushErr { RoomToFlush(); }
        ok := Flush(fails);
        if !ok {
          return;
        }
      }
      Store(e);
      ok := true;
      if totalBuffered >= l.bufferCap {
        if roomy && !flushErr { RoomToFlush(); }
        ok := Flush(fails);
      }
    }

    /** Everything added is on disk, partition by partition in the order added. */
    method FlushAll(fails: set<nat>, lastFails: set<nat>) returns (ok: bool)
      requires Valid()
      modifies this
      ensures ok ==> added == old(added) && l.Valid() && Holds(l, disk, Groups(l.PartOf(), added, l.numPartitions))
      ensures !old(flushErr) && fails == {} && lastFails == {} && Roomy(l, old(added)) ==> ok
    {
      hide *;
      if flushing && !flushErr {
        if fails == {} && Roomy(l, added) { RoomToFlush(); }
        RunFlush(fails);
      }
      if flushErr {
        return false;
      }
      Settled();
      if totalBuffered == 0 {
        CollectedDone(l, flushed, added);
        return true;
      }
      everFlushed := true;
      ok := FlushActive(lastFails);
    }

    // With room for everything added, the flush under way does not overflow.
    lemma RoomToFlush()
      requires Valid() && !flushErr && Roomy(l, added)
      ensures Buffers() && Writable(l, flushed, Pending(), {})
    {
      hide *;
      ValidIs();
      BuffersOpen();
      RoomyWritable(l, flushed, Pending(), Active().Parts(), added);
    }

    lemma ActiveValid()
      requires Valid()
      ensures Active().l == l && Active().Valid() && |Active().Parts()| == l.numPartitions
    {
      hide Holds, Group;
    }

    // Before anything was flushed, everything is in the active buffer.
    lemma NothingFlushed()
      requires Valid() && !everFlushed
      ensures l.Valid() && Active().Parts() == Groups(l.PartOf(), added, l.numPartitions)
    {
      hide Holds, Group;
      var active := Active().Parts();
      forall p | 0 <= p < l.numPartitions ensures active[p] == Group(l.PartOf(), added, p) {
        assert flushed[p] + Pending()[p] + active[p] == active[p];
      }
    }

    // With no flush under way, what is not on disk is in the active buffer.
    lemma Settled()
      requires Valid() && !flushing && !flushErr
      ensures l.Valid() && Buffers() && Holds(l, disk, flushed)
      ensures Collected(l, flushed, Nothing(l.numPartitions), Active().Parts(), added)
      ensures totalBuffered == 0 ==> Collected(l, flushed, Nothing(l.numPartitions), Nothing(l.numPartitions), added)
    {
      hide Holds, Collected;
      if totalBuffered == 0 {
        EmptyParts(Active());
      }
    }

    method FlushActive(fails: set<nat>) returns (ok: bool)
      requires l.Valid() && Buffers() && !flushing && Holds(l, disk, flushed)
      requires Collected(l, flushed, Nothing(l.numPartitions), Active().Parts(), added)
      modifies `disk
      ensures ok ==> Holds(l, disk, Groups(l.PartOf(), added, l.numPartitions))
      ensures fails == {} && Roomy(l, added) ==> ok
    {
      hide *;
      BuffersOpen();
      ghost var active := Active().Parts();
      CollectedSwap(l, flushed, active, added);
      CollectedAllRouted(l, flushed, active, Nothing(l.numPartitions), added);
      CollectedFlush(l, flushed, active, Nothing(l.numPartitions), added);
      if fails == {} && Roomy(l, added) {
        RoomyWritable(l, flushed, active, Nothing(l.numPartitions), added);
      }
      ok := DoFlush(Active(), fails);
      if ok {
        CollectedDone(l, Joined(flushed, active, l.numPartitions), added);
      }
    }

    lemma BuffersOpen()
      requires Buffers()
      ensures Active().l == l && Active().Valid() && Other().l == l && Other().Valid()
    {
    }

    lemma Flushed(ok: bool)
      requires l.Valid() && Buffers() && !flushing && flushErr == !ok && (totalBuffered == 0 ==> Active().Empty()) && everFlushed
      requires ok ==> Holds(l, disk, flushed) && Collected(l, flushed, Nothing(l.numPartitions), Active().Parts(), added)
      ensures Valid()
    {
      hide Holds, Collected;
    }
  }

  lemma WritableIs(l: Layout, d: Disk, held: seq<seq<Entry>>, p: nat, es: seq<Entry>, fails: set<nat>)
    requires Holds(l, d, held) && p < |held| == l.numPartitions
    ensures p < |d.cursors|
    ensures WritableAt(l, held[p], es, p, fails)
       <==> |es| == 0 || (p !in fails && d.cursors[p] + Offset(|es|, l.EntrySize()) <= l.regionSize)
  {
    assert HoldsPart(l, d, p, held[p]);
    Spread(|held[p]|, |es|, l.EntrySize());
    hide Offset, Group, Encoded;
  }

  lemma NotWritable(l: Layout, flushed: seq<seq<Entry>>, parts: seq<seq<Entry>>, p: nat, fails: set<nat>)
    requires |flushed| == |parts| && p < |parts| && !WritableAt(l, flushed[p], parts[p], p, fails)
    ensures !Writable(l, flushed, parts, fails)
  {
    hide WritableAt;
  }

  lemma WritableIf(l: Layout, flushed: seq<seq<Entry>>, parts: seq<seq<Entry>>, fails: set<nat>)
    requires |flushed| == |parts| && forall p: nat :: p < |parts| ==> WritableAt(l, flushed[p], parts[p], p, fails)
    ensures Writable(l, flushed, parts, fails)
  {
    hide WritableAt;
  }

  lemma ValidLayout(l: Layout)
    requires l.Valid()
    ensures l.blocksPerPart > 0 && l.numPartitions > 0
  {
  }

  lemma RoutedPart(l: Layout, parts: seq<seq<Entry>>, p: nat)
    requires l.blocksPerPart > 0 && AllRouted(l, parts) && p < |parts|
    ensures RoutedTo(l, parts[p], p)
  {
  }

  lemma RoutedIs(l: Layout, es: seq<Entry>, p: nat)
    requires l.blocksPerPart > 0 && RoutedTo(l, es, p)
    ensures forall i :: 0 <= i < |es| ==> l.PartOf()(es[i]) == p
  {
  }

  lemma PartIs(b: FlatBuffer, p: nat)
    requires b.Valid() && p < b.l.numPartitions
    ensures p < b.cursors.Length && |b.Parts()| == b.l.numPartitions
    ensures Offset(p, b.l.regionCap) + b.cursors[p] <= b.data.Length
    ensures b.Parts()[p] == b.Part(p) && |b.Part(p)| == b.cursors[p]
  {
    OffsetFits(p, b.l.numPartitions, b.l.regionCap);
  }

  lemma FlushIs(l: Layout, d: Disk, p: nat, es: seq<Entry>)
    requires l.blocksPerPart > 0 && p < |d.cursors| == |d.counts|
    requires d.cursors[p] + Offset(|es|, l.EntrySize()) <= l.regionSize
    ensures FlushPart(l, d, p, es)
            == Some(Disk(WriteAt(d.file, l.RegionStart(p) + d.cursors[p], Encoded(l, es)),
                         d.cursors[p := d.cursors[p] + Offset(|es|, l.EntrySize())], d.counts[p := CountAll(l, d.counts[p], es)]))
  {
    hide Offset, CountAll, Encoded, WriteAt;
  }

  lemma HoldsLengths(l: Layout, d: Disk, flushed: seq<seq<Entry>>)
    requires Holds(l, d, flushed)
    ensures |d.cursors| == |d.counts| == |flushed| == l.numPartitions
  {
  }

  lemma JoinedNone(flushed: seq<seq<Entry>>, parts: seq<seq<Entry>>)
    requires |flushed| == |parts|
    ensures Joined(flushed, parts, 0) == flushed
  {
  }

  lemma JoinedNext(flushed: seq<seq<Entry>>, parts: seq<seq<Entry>>, p: nat)
    requires p < |flushed| == |parts|
    ensures Joined(flushed, parts, p)[p] == flushed[p]
    ensures Joined(flushed, parts, p + 1) == Joined(flushed, parts, p)[p := flushed[p] + parts[p]]
    ensures parts[p] == [] ==> Joined(flushed, parts, p + 1) == Joined(flushed, parts, p)
  {
    assert parts[p] == [] ==> flushed[p] + parts[p] == flushed[p];
  }
}
