/** The unsorted finish: counts merged, partitions scattered to blocks, or everything sorted in
    memory. Either way each block receives exactly the entries routed to it. */
module UnsortedFinish {
  import opened Basics
  import opened LittleEndian
  import opened Encoding
  import opened Grouping
  import opened IndexFormat
  import opened Routing
  import opened UnsortedLayout
  import opened UnsortedReader
  import opened UnsortedBlocks
  import opened UnsortedCounts
  import opened UnsortedWriter

  // ---------- Scatter ----------

  ghost predicate Monotone(starts: seq<nat>) {
    forall i, j :: 0 <= i <= j < |starts| ==> starts[i] <= starts[j]
  }

  // Group base + g of the first `done` items lies from starts[g], its cursor behind it.
  ghost predicate GroupPlaced<T>(f: T -> nat, base: nat, flat: seq<T>, cursors: seq<nat>, starts: seq<nat>, done: seq<T>, g: nat)
    requires g < |cursors| && g + 1 < |starts|
  {
    && cursors[g] == starts[g] + |Group(f, done, base + g)| <= starts[g + 1] <= |flat|
    && flat[starts[g]..cursors[g]] == Group(f, done, base + g)
  }

  ghost predicate Scattered<T>(f: T -> nat, base: nat, flat: seq<T>, cursors: seq<nat>, starts: seq<nat>, done: seq<T>) {
    && |starts| == |cursors| + 1 && Monotone(starts)
    && forall g :: 0 <= g < |cursors| ==> GroupPlaced(f, base, flat, cursors, starts, done, g)
  }

  lemma ScatterOne<T>(f: T -> nat, base: nat, flat: seq<T>, cursors: seq<nat>, starts: seq<nat>, done: seq<T>, e: T)
    requires Scattered(f, base, flat, cursors, starts, done)
    requires base <= f(e) < base + |cursors| && |Group(f, done + [e], f(e))| <= starts[f(e) - base + 1] - starts[f(e) - base]
    ensures cursors[f(e) - base] < |flat|
    ensures Scattered(f, base, flat[cursors[f(e) - base] := e], cursors[f(e) - base := cursors[f(e) - base] + 1], starts, done + [e])
  {
    var k := f(e) - base;
    assert GroupPlaced(f, base, flat, cursors, starts, done, k);
    GroupAppend(f, done, e, f(e));
    var flat', cursors' := flat[cursors[k] := e], cursors[k := cursors[k] + 1];
    forall g | 0 <= g < |cursors| ensures GroupPlaced(f, base, flat', cursors', starts, done + [e], g) {
      assert GroupPlaced(f, base, flat, cursors, starts, done, g);
      GroupAppend(f, done, e, base + g);
      hide Group;
      if g == k {
        assert flat'[starts[k]..cursors'[k]] == flat[starts[k]..cursors[k]] + [e];
      } else {
        assert starts[g + 1] <= starts[k] || starts[k + 1] <= starts[g];
        assert flat'[starts[g]..cursors[g]] == flat[starts[g]..cursors[g]];
      }
    }
  }

  lemma {:induction false} GroupPrefix<T>(f: T -> nat, all: seq<T>, i: nat, b: nat)
    requires i <= |all|
    ensures |Group(f, all[..i], b)| <= |Group(f, all, b)|
  {
    assert all == all[..i] + all[i..];
    GroupJoin(f, all[..i], all[i..], b);
  }

  // Each group has the room its size needs.
  ghost predicate Roomy<T>(f: T -> nat, base: nat, starts: seq<nat>, all: seq<T>) {
    forall g :: 0 <= g < |starts| - 1 ==> starts[g + 1] == starts[g] + |Group(f, all, base + g)|
  }

  // Puts the items all[from..to] at their groups' cursors.
  method Scatter(l: Layout, base: nat, ghost all: seq<Entry>, ghost from: nat, es: seq<Entry>, flat: array<Entry>,
                 cursors: array<nat>, ghost starts: seq<nat>)
    requires from + |es| <= |all| && all[from..from + |es|] == es
    requires Scattered(l.BlockOf(), base, flat[..], cursors[..], starts, all[..from]) && Roomy(l.BlockOf(), base, starts, all)
    requires forall i :: 0 <= i < |es| ==> base <= l.BlockOf()(es[i]) < base + cursors.Length
    modifies flat, cursors
    ensures Scattered(l.BlockOf(), base, flat[..], cursors[..], starts, all[..from + |es|])
  {
    hide Scattered, Group;
    for i := 0 to |es|
      invariant Scattered(l.BlockOf(), base, flat[..], cursors[..], starts, all[..from + i])
    {
      var local := Route(es[i].k0, l.numBlocks) - base;
      assert all[from + i] == es[i] by { assert all[from..from + |es|][i] == es[i]; }
      assert all[..from + i + 1] == all[..from + i] + [es[i]];
      GroupPrefix(l.BlockOf(), all, from + i + 1, l.BlockOf()(es[i]));
      ScatteredLengths(l.BlockOf(), base, flat[..], cursors[..], starts, all[..from + i]);
      ScatterOne(l.BlockOf(), base, flat[..], cursors[..], starts, all[..from + i], es[i]);
      flat[cursors[local]] := es[i];
      cursors[local] := cursors[local] + 1;
    }
  }

  lemma ScatteredLengths<T>(f: T -> nat, base: nat, flat: seq<T>, cursors: seq<nat>, starts: seq<nat>, done: seq<T>)
    requires Scattered(f, base, flat, cursors, starts, done)
    ensures |starts| == |cursors| + 1
  {
  }

  // Where the groups start: the sums of the counts before them.
  method Starts(counts: seq<nat>, cursors: array<nat>) returns (starts: seq<nat>)
    requires cursors.Length == |counts|
    modifies cursors
    ensures |starts| == |counts| + 1 && starts[0] == 0 && cursors[..] == starts[..|counts|]
    ensures forall g :: 0 <= g < |counts| ==> starts[g + 1] == starts[g] + counts[g]
  {
    starts := [0];
    for g := 0 to |counts|
      invariant |starts| == g + 1 && starts[0] == 0 && cursors[..g] == starts[..g]
      invariant forall k :: 0 <= k < g ==> starts[k + 1] == starts[k] + counts[k]
    {
      cursors[g] := starts[g];
      starts := starts + [starts[g] + counts[g]];
    }
  }

  lemma {:induction false} StartsMonotone(starts: seq<nat>, i: nat, j: nat)
    requires forall g :: 0 <= g < |starts| - 1 ==> starts[g] <= starts[g + 1]
    requires i <= j < |starts|
    ensures starts[i] <= starts[j]
    decreases j
  {
    if i < j {
      StartsMonotone(starts, i, j - 1);
    }
  }

  lemma NothingScattered<T>(f: T -> nat, base: nat, flat: seq<T>, starts: seq<nat>)
    requires |starts| > 0 && (forall g :: 0 <= g < |starts| - 1 ==> starts[g] <= starts[g + 1]) && starts[|starts| - 1] <= |flat|
    ensures Scattered(f, base, flat, starts[..|starts| - 1], starts, [])
  {
    forall i, j | 0 <= i <= j < |starts| ensures starts[i] <= starts[j] { StartsMonotone(starts, i, j); }
  }

  // With everything placed, each stretch is its group.
  lemma AllScattered<T>(f: T -> nat, base: nat, flat: seq<T>, cursors: seq<nat>, starts: seq<nat>, all: seq<T>, g: nat)
    requires Scattered(f, base, flat, cursors, starts, all) && Roomy(f, base, starts, all) && g < |cursors|
    ensures |starts| == |cursors| + 1 && starts[g] <= starts[g + 1] <= |flat|
    ensures flat[starts[g]..starts[g + 1]] == Group(f, all, base + g)
  {
    assert GroupPlaced(f, base, flat, cursors, starts, all, g);
    hide Group;
  }

  // ---------- Merging the counts ----------

  function WriterCounters(disks: seq<Disk>, p: nat, local: nat): nat -> nat {
    (w: nat) => CounterAt(disks, w, p, local)
  }

  // The merged counts of partition p.
  ghost predicate RowIs(l: Layout, disks: seq<Disk>, p: nat, row: seq<nat>) {
    |row| == l.blocksPerPart && forall local :: 0 <= local < l.blocksPerPart ==>
      row[local] == SumTo(|disks|, WriterCounters(disks, p, local))
  }

  /** Sums the writers' counts block by block; an error if they do not add up to the keys. */
  method MergeBlockCounts(l: Layout, disks: seq<Disk>, totalKeys: nat) returns (ok: bool, merged: seq<seq<nat>>)
    requires forall w :: 0 <= w < |disks| ==> Shaped(l, disks[w])
    ensures ok <==> MergedTotal(l, disks) == totalKeys
    ensures |merged| == l.numPartitions && forall p: nat :: p < l.numPartitions ==> RowIs(l, disks, p, merged[p])
  {
    hide RowIs, PartTotals;
    merged := [];
    var total := 0;
    for p := 0 to l.numPartitions
      invariant |merged| == p && total == SumTo(p, PartTotals(l, disks))
      invariant forall q: nat :: q < p ==> RowIs(l, disks, q, merged[q])
    {
      var row, added := MergePartition(l, disks, p);
      total := total + added;
      merged := merged + [row];
    }
    ok := total == totalKeys;
  }

  method MergePartition(l: Layout, disks: seq<Disk>, p: nat) returns (row: seq<nat>, total: nat)
    requires forall w :: 0 <= w < |disks| ==> Shaped(l, disks[w])
    requires p < l.numPartitions
    ensures total == PartTotals(l, disks)(p) && RowIs(l, disks, p, row)
  {
    row, total := seq(l.blocksPerPart, _ => 0), 0;
    for w := 0 to |disks|
      invariant |row| == l.blocksPerPart && total == SumTo(w, WriterTotals(l, disks, p))
      invariant forall local :: 0 <= local < l.blocksPerPart ==> row[local] == SumTo(w, WriterCounters(disks, p, local))
    {
      var added;
      row, added := MergeWriter(l, disks, p, w, row);
      total := total + added;
    }
  }

  // Adds one writer's counts of the partition.
  method MergeWriter(l: Layout, disks: seq<Disk>, p: nat, w: nat, row: seq<nat>) returns (merged: seq<nat>, total: nat)
    requires w < |disks| && Shaped(l, disks[w]) && p < l.numPartitions && |row| == l.blocksPerPart
    ensures |merged| == l.blocksPerPart && total == SumTo(l.blocksPerPart, Counters(disks, p, w))
    ensures forall local :: 0 <= local < l.blocksPerPart ==> merged[local] == row[local] + WriterCounters(disks, p, local)(w)
  {
    var counts := disks[w].counts[p];
    merged, total := row, 0;
    for b := 0 to l.blocksPerPart
      invariant |merged| == l.blocksPerPart && total == SumTo(b, Counters(disks, p, w))
      invariant forall local :: 0 <= local < b ==> merged[local] == row[local] + counts[local]
      invariant forall local :: b <= local < l.blocksPerPart ==> merged[local] == row[local]
    {
      merged := merged[b := merged[b] + counts[b]];
      total := total + counts[b];
    }
  }

  function Length(ss: seq<seq<Entry>>): nat -> nat { (w: nat) => if w < |ss| then |ss[w]| else 0 }

  lemma {:induction false} ConcatLength(ss: seq<seq<Entry>>, n: nat)
    requires n <= |ss|
    ensures |Concat(ss[..n])| == SumTo(n, Length(ss))
  {
    if n > 0 {
      ConcatLength(ss, n - 1);
      ConcatNext(ss, n);
      hide Concat;
    }
  }

  // Unless a counter wrapped, the merged count of a block is the number of its entries.
  lemma MergedCount(l: Layout, disks: seq<Disk>, added: seq<seq<Entry>>, p: nat, local: nat)
    requires AllFlushed(l, disks, added) && NoWrap(l, added) && p < l.numPartitions && local < l.blocksPerPart
    ensures SumTo(|disks|, WriterCounters(disks, p, local)) == |BlockEntries(l, added, l.BlockAt(p, local))|
  {
    var b := l.BlockAt(p, local);
    var ss := seq(|added|, w requires 0 <= w < |added| => TrimAll(l, Group(l.BlockOf(), added[w], b)));
    FlushedLengths(l, disks, added);
    ConcatLength(ss, |ss|);
    assert ss[..|ss|] == ss;
    forall w: nat | w < |disks| ensures WriterCounters(disks, p, local)(w) == Length(ss)(w) {
      CounterIs(l, disks, added, w, p, local);
      assert BlockSize(l, added, w, b) < 0x1_0000;
      U16Small(BlockSize(l, added, w, b));
      hide CounterAt, Group, AllFlushed, NoWrap, U16;
    }
    hide CounterAt, Group, AllFlushed, NoWrap, SumTo, Length, WriterCounters;
    SumSame(|disks|, WriterCounters(disks, p, local), Length(ss));
  }

  // ---------- Reading a partition ----------

  function LocalBlocks(l: Layout, p: nat): nat {
    var first := l.BlockAt(p, 0);
    if first >= l.numBlocks then 0 else if first + l.blocksPerPart <= l.numBlocks then l.blocksPerPart else l.numBlocks - first
  }

  // All entries of the partition, in the order they are read.
  ghost function PartitionOrder(l: Layout, added: seq<seq<Entry>>, p: nat): seq<Entry>
    requires l.Valid()
  {
    Concat(PartitionEntries(l, added, p))
  }

  lemma {:induction false} ConcatMember(ss: seq<seq<Entry>>, i: nat) returns (w: nat, k: nat)
    requires i < |Concat(ss)|
    ensures w < |ss| && k < |ss[w]| && ss[w][k] == Concat(ss)[i]
  {
    var n := |ss| - 1;
    if i < |Concat(ss[..n])| {
      w, k := ConcatMember(ss[..n], i);
    } else {
      w, k := n, i - |Concat(ss[..n])|;
    }
  }

  lemma TrimmedRouted(l: Layout, s: seq<Entry>, p: nat, i: nat)
    requires l.Valid() && i < |Group(l.PartOf(), s, p)|
    ensures l.PartOf()(TrimAll(l, Group(l.PartOf(), s, p))[i]) == p
  {
    GroupMember(l.PartOf(), s, p, i);
    hide Group;
  }

  // The entries of a partition belong to its blocks.
  lemma PartitionBlocks(l: Layout, e: Entry, p: nat)
    requires l.Valid() && l.PartOf()(e) == p
    ensures l.BlockAt(p, 0) <= l.BlockOf()(e) < l.BlockAt(p, 0) + LocalBlocks(l, p)
  {
    PartInRange(l, e);
  }

  lemma PartitionRouted(l: Layout, added: seq<seq<Entry>>, p: nat, i: nat)
    requires l.Valid() && i < |PartitionOrder(l, added, p)|
    ensures l.BlockAt(p, 0) <= l.BlockOf()(PartitionOrder(l, added, p)[i]) < l.BlockAt(p, 0) + LocalBlocks(l, p)
  {
    var w, k := ConcatMember(PartitionEntries(l, added, p), i);
    TrimmedRouted(l, added[w], p, k);
    PartitionBlocks(l, PartitionOrder(l, added, p)[i], p);
  }

  lemma BlockOfPartition(l: Layout, added: seq<seq<Entry>>, p: nat, local: nat)
    requires l.Valid() && local < l.blocksPerPart
    ensures Group(l.BlockOf(), PartitionOrder(l, added, p), l.BlockAt(p, 0) + local) == BlockEntries(l, added, l.BlockAt(p, local))
  {
    var b := l.BlockAt(p, local);
    DivUnique(b, l.blocksPerPart, p, local);
    BlockFromPartition(l, added, b);
    hide Group, BlockEntries, Concat, Offset;
  }

  // The partition's merged counts.
  ghost predicate CountsMatch(l: Layout, added: seq<seq<Entry>>, p: nat, counts: seq<nat>) {
    |counts| == l.blocksPerPart && forall local :: 0 <= local < l.blocksPerPart ==>
      counts[local] == |BlockEntries(l, added, l.BlockAt(p, local))|
  }

  // The starts from the counts leave room for every block, and the partition fills them.
  lemma StartsFit(l: Layout, added: seq<seq<Entry>>, p: nat, counts: seq<nat>, starts: seq<nat>)
    requires l.Valid() && CountsMatch(l, added, p, counts) && |starts| == LocalBlocks(l, p) + 1 && starts[0] == 0
    requires forall g :: 0 <= g < LocalBlocks(l, p) ==> starts[g + 1] == starts[g] + counts[g]
    ensures Roomy(l.BlockOf(), l.BlockAt(p, 0), starts, PartitionOrder(l, added, p))
    ensures starts[LocalBlocks(l, p)] == |PartitionOrder(l, added, p)|
  {
    var all, base, n := PartitionOrder(l, added, p), l.BlockAt(p, 0), LocalBlocks(l, p);
    forall g | 0 <= g < n ensures counts[g] == |Group(l.BlockOf(), all, base + g)| {
      BlockOfPartition(l, added, p, g);
      hide Group, BlockEntries, PartitionOrder;
    }
    forall i | 0 <= i < |all| ensures base <= l.BlockOf()(all[i]) < base + n { PartitionRouted(l, added, p, i); }
    hide Group, BlockEntries, PartitionOrder, LocalBlocks;
    GroupSizes(l.BlockOf(), all, base, n);
    StartsSum(l, all, base, starts, n);
  }

  lemma {:induction false} StartsSum(l: Layout, all: seq<Entry>, base: nat, starts: seq<nat>, n: nat)
    requires n < |starts| && starts[0] == 0
    requires forall g :: 0 <= g < n ==> starts[g + 1] == starts[g] + |Group(l.BlockOf(), all, base + g)|
    ensures starts[n] == SumTo(n, GroupSize(l.BlockOf(), all, base))
  {
    if n > 0 {
      StartsSum(l, all, base, starts, n - 1);
    }
  }

  // The records of one writer's region are the next entries of the partition.
  lemma NextEntries(l: Layout, added: seq<seq<Entry>>, p: nat, w: nat)
    requires l.Valid() && w < |added|
    ensures var before := Concat(PartitionEntries(l, added, p)[..w]);
            var es := TrimAll(l, Group(l.PartOf(), added[w], p));
            var all := PartitionOrder(l, added, p);
            && |before| + |es| <= |all| && all[..|before|] == before && all[|before|..|before| + |es|] == es
            && Concat(PartitionEntries(l, added, p)[..w + 1]) == before + es
            && (forall i :: 0 <= i < |es| ==> l.BlockAt(p, 0) <= l.BlockOf()(es[i]) < l.BlockAt(p, 0) + LocalBlocks(l, p))
  {
    var parts := PartitionEntries(l, added, p);
    ConcatNext(parts, w + 1);
    ConcatPrefix(parts, w + 1);
    var es := TrimAll(l, Group(l.PartOf(), added[w], p));
    forall i | 0 <= i < |es| ensures l.BlockAt(p, 0) <= l.BlockOf()(es[i]) < l.BlockAt(p, 0) + LocalBlocks(l, p) {
      TrimmedRouted(l, added[w], p, i);
      PartitionBlocks(l, es[i], p);
    }
    hide Concat, Group, TrimAll, LocalBlocks;
  }

  lemma {:induction false} ConcatPrefix<T>(ss: seq<seq<T>>, n: nat)
    requires n <= |ss|
    ensures |Concat(ss[..n])| <= |Concat(ss)| && Concat(ss)[..|Concat(ss[..n])|] == Concat(ss[..n])
  {
    if n < |ss| {
      ConcatPrefix(ss[..|ss| - 1], n);
      assert ss[..|ss| - 1][..n] == ss[..n];
    } else {
      assert ss[..n] == ss;
    }
  }

  // What partition p's blocks receive.
  ghost predicate BlocksRead(l: Layout, added: seq<seq<Entry>>, p: nat, blocks: seq<seq<Entry>>) {
    |blocks| == LocalBlocks(l, p) && forall g :: 0 <= g < |blocks| ==> blocks[g] == BlockEntries(l, added, l.BlockAt(p, g))
  }

  // A writer's file gives its entries of the partition.
  ghost predicate Readable(l: Layout, disks: seq<Disk>, added: seq<seq<Entry>>) {
    AllFlushed(l, disks, added) && forall w :: 0 <= w < |added| ==> AllStorable(l, added[w])
  }

  lemma {:induction false} GroupStorable(l: Layout, s: seq<Entry>, p: nat)
    requires l.Valid() && AllStorable(l, s)
    ensures AllStorable(l, Group(l.PartOf(), s, p))
  {
    forall i | 0 <= i < |Group(l.PartOf(), s, p)| ensures Storable(l, Group(l.PartOf(), s, p)[i]) {
      GroupMember(l.PartOf(), s, p, i);
      hide Group, Storable;
    }
  }

  lemma RegionHolds(l: Layout, disks: seq<Disk>, added: seq<seq<Entry>>, w: nat, p: nat)
    requires Readable(l, disks, added) && w < |disks| && p < l.numPartitions
    ensures l.Valid() && |disks| == |added| && Shaped(l, disks[w])
    ensures HoldsPart(l, disks[w], p, Group(l.PartOf(), added[w], p)) && AllStorable(l, Group(l.PartOf(), added[w], p))
  {
    assert Holds(l, disks[w], Groups(l.PartOf(), added[w], l.numPartitions));
    GroupStorable(l, added[w], p);
    hide HoldsPart, Group, AllStorable;
  }

  // Reads one writer's region of the partition.
  method ReadWriter(l: Layout, disks: seq<Disk>, ghost added: seq<seq<Entry>>, w: nat, p: nat, readBuf: array<Byte>)
    returns (es: seq<Entry>)
    requires Readable(l, disks, added) && w < |disks| && p < l.numPartitions && l.EntrySize() <= readBuf.Length
    modifies readBuf
    ensures l.Valid() && |disks| == |added| && es == TrimAll(l, Group(l.PartOf(), added[w], p))
  {
    hide *;
    ghost var part := RegionPart(l, disks, added, w, p);
    LayoutSize(l);
    if disks[w].cursors[p] == 0 {
      EmptyRegion(l, disks[w], p, part);
      return [];
    }
    NonEmptyRegion(l, disks[w], p, part);
    PartitionReadsBack(l, disks[w], p, part);
    RegionLength(l, disks[w], p, part);
    var ok, records := ReadRegion(disks[w].file, l.RegionStart(p), disks[w].cursors[p], readBuf, l.EntrySize());
    es := Decode(l, records);
  }

  ghost function RegionPart(l: Layout, disks: seq<Disk>, added: seq<seq<Entry>>, w: nat, p: nat): (part: seq<Entry>)
    requires Readable(l, disks, added) && w < |disks| && p < l.numPartitions
    ensures l.Valid() && |disks| == |added| && Shaped(l, disks[w]) && p < |disks[w].cursors|
    ensures part == Group(l.PartOf(), added[w], p) && HoldsPart(l, disks[w], p, part) && AllStorable(l, part)
  {
    RegionHolds(l, disks, added, w, p);
    Group(l.PartOf(), added[w], p)
  }

  lemma EmptyRegion(l: Layout, d: Disk, p: nat, es: seq<Entry>)
    requires Shaped(l, d) && p < l.numPartitions && HoldsPart(l, d, p, es) && d.cursors[p] == 0
    ensures TrimAll(l, es) == []
  {
    if |es| > 0 {
      PartitionLength(l, d, p, es);
      assert false;
    }
  }

  lemma NonEmptyRegion(l: Layout, d: Disk, p: nat, es: seq<Entry>)
    requires Shaped(l, d) && p < l.numPartitions && HoldsPart(l, d, p, es) && d.cursors[p] > 0
    ensures |es| > 0
  {
    hide Group, Encoded;
  }

  lemma RegionLength(l: Layout, d: Disk, p: nat, es: seq<Entry>)
    requires Shaped(l, d) && p < l.numPartitions && HoldsPart(l, d, p, es) && |es| > 0
    ensures d.cursors[p] == Offset(|es|, l.EntrySize())
  {
    PartitionLength(l, d, p, es);
  }

  /** Reads partition p of every writer's file and scatters it: each block receives exactly
      its entries. */
  method ReadPartition(l: Layout, disks: seq<Disk>, ghost added: seq<seq<Entry>>, p: nat, counts: seq<nat>,
                       flatBuf: array<Entry>, readBuf: array<Byte>)
    returns (blocks: seq<seq<Entry>>)
    requires Readable(l, disks, added) && p < l.numPartitions && CountsMatch(l, added, p, counts)
    requires l.EntrySize() <= readBuf.Length && |PartitionOrder(l, added, p)| <= flatBuf.Length
    modifies flatBuf, readBuf
    ensures BlocksRead(l, added, p, blocks)
  {
    hide *;
    ReadableIs(l, disks, added);
    ghost var all := PartitionOrder(l, added, p);
    var n := LocalBlocks(l, p);
    var starts, cursors := Prepare(l, added, p, counts, flatBuf);
    ConcatNone(PartitionEntries(l, added, p));
    assert all[..0] == [];
    var w := 0;
    while w < |disks|
      invariant w <= |disks| == |added| && cursors.Length == n
      invariant |Concat(PartitionEntries(l, added, p)[..w])| <= |all|
      invariant Scattered(l.BlockOf(), l.BlockAt(p, 0), flatBuf[..], cursors[..], starts,
                          all[..|Concat(PartitionEntries(l, added, p)[..w])|])
    {
      ghost var from := |Concat(PartitionEntries(l, added, p)[..w])|;
      NextEntries(l, added, p, w);
      var es := ReadWriter(l, disks, added, w, p, readBuf);
      Scatter(l, l.BlockAt(p, 0), all, from, es, flatBuf, cursors, starts);
      w := w + 1;
    }
    AllRead(PartitionEntries(l, added, p), all, |added|, l, added, p);
    blocks := Slices(l, l.BlockAt(p, 0), flatBuf[..], starts, n, cursors[..], all);
    SlicesAreBlocks(l, added, p, blocks);
  }

  lemma ReadableIs(l: Layout, disks: seq<Disk>, added: seq<seq<Entry>>)
    requires Readable(l, disks, added)
    ensures l.Valid() && |disks| == |added|
  {
  }

  // Computes where the blocks start, and their cursors.
  method Prepare(l: Layout, ghost added: seq<seq<Entry>>, p: nat, counts: seq<nat>, flatBuf: array<Entry>)
    returns (starts: seq<nat>, cursors: array<nat>)
    requires l.Valid() && CountsMatch(l, added, p, counts) && |PartitionOrder(l, added, p)| <= flatBuf.Length
    ensures fresh(cursors) && cursors.Length == LocalBlocks(l, p)
    ensures Scattered(l.BlockOf(), l.BlockAt(p, 0), flatBuf[..], cursors[..], starts, [])
    ensures Roomy(l.BlockOf(), l.BlockAt(p, 0), starts, PartitionOrder(l, added, p))
  {
    hide LocalBlocks, Scattered, Roomy, PartitionOrder, BlockEntries;
    var n := LocalBlocks(l, p);
    LocalBound(l, p);
    cursors := new nat[n];
    starts := Starts(counts[..n], cursors);
    StartsFit(l, added, p, counts, starts);
    NothingScattered(l.BlockOf(), l.BlockAt(p, 0), flatBuf[..], starts);
    assert cursors[..] == starts[..|starts| - 1];
  }

  lemma LocalBound(l: Layout, p: nat)
    ensures LocalBlocks(l, p) <= l.blocksPerPart
  {
  }

  lemma ConcatNone(ss: seq<seq<Entry>>)
    ensures Concat(ss[..0]) == []
  {
  }

  lemma AllRead(parts: seq<seq<Entry>>, all: seq<Entry>, n: nat, l: Layout, added: seq<seq<Entry>>, p: nat)
    requires l.Valid() && parts == PartitionEntries(l, added, p) && all == PartitionOrder(l, added, p) && n == |added|
    ensures |parts| == n && Concat(parts[..n]) == all && all[..|all|] == all
  {
    assert parts[..n] == parts;
  }

  // The blocks' stretches of the flat buffer.
  method Slices(l: Layout, base: nat, flat: seq<Entry>, starts: seq<nat>, n: nat, ghost cursors: seq<nat>, ghost all: seq<Entry>)
    returns (blocks: seq<seq<Entry>>)
    requires n == |cursors| && Scattered(l.BlockOf(), base, flat, cursors, starts, all) && Roomy(l.BlockOf(), base, starts, all)
    ensures |blocks| == n && forall g :: 0 <= g < n ==> blocks[g] == Group(l.BlockOf(), all, base + g)
  {
    hide Scattered, Roomy, Group;
    ScatteredLengths(l.BlockOf(), base, flat, cursors, starts, all);
    blocks := [];
    for g := 0 to n
      invariant |blocks| == g && forall k :: 0 <= k < g ==> blocks[k] == Group(l.BlockOf(), all, base + k)
    {
      AllScattered(l.BlockOf(), base, flat, cursors, starts, all, g);
      blocks := blocks + [flat[starts[g]..starts[g + 1]]];
    }
  }

  lemma SlicesAreBlocks(l: Layout, added: seq<seq<Entry>>, p: nat, blocks: seq<seq<Entry>>)
    requires l.Valid() && |blocks| == LocalBlocks(l, p)
    requires forall g :: 0 <= g < |blocks| ==> blocks[g] == Group(l.BlockOf(), PartitionOrder(l, added, p), l.BlockAt(p, 0) + g)
    ensures BlocksRead(l, added, p, blocks)
  {
    forall g | 0 <= g < |blocks| ensures blocks[g] == BlockEntries(l, added, l.BlockAt(p, g)) {
      BlockOfPartition(l, added, p, g);
    }
    hide Group, PartitionOrder, BlockEntries;
  }

  // ---------- How large the slots must be ----------

  // What writer w's cursor says of partition p.
  lemma CursorIs(l: Layout, disks: seq<Disk>, added: seq<seq<Entry>>, p: nat, w: nat)
    requires Readable(l, disks, added) && p < l.numPartitions && w < |disks|
    ensures |disks| == |added| && p < |disks[w].cursors|
    ensures disks[w].cursors[p] == Offset(|PartitionEntries(l, added, p)[w]|, l.EntrySize())
  {
    assert Holds(l, disks[w], Groups(l.PartOf(), added[w], l.numPartitions));
    assert HoldsPart(l, disks[w], p, Groups(l.PartOf(), added[w], l.numPartitions)[p]);
    hide Group;
  }

  lemma OffsetMore(a: nat, b: nat, size: nat)
    ensures Offset(a + b, size) == Offset(a, size) + Offset(b, size)
  {
  }

  lemma Unoffset(n: nat, size: nat)
    requires size > 0
    ensures Offset(n, size) / size == n
  {
    DivUnique(Offset(n, size), size, n, 0);
  }

  // The bytes of a partition in all files.
  method PartitionBytes(l: Layout, disks: seq<Disk>, ghost added: seq<seq<Entry>>, p: nat) returns (total: nat)
    requires Readable(l, disks, added) && p < l.numPartitions
    ensures l.Valid() && total == Offset(|PartitionOrder(l, added, p)|, l.EntrySize())
  {
    hide *;
    ReadableIs(l, disks, added);
    ghost var parts := PartitionEntries(l, added, p);
    total := 0;
    ConcatNone(parts);
    OffsetNone(l.EntrySize());
    var w: nat := 0;
    while w < |disks|
      invariant w <= |disks| == |added| == |parts| && total == Offset(|Concat(parts[..w])|, l.EntrySize())
    {
      CursorIs(l, disks, added, p, w);
      ConcatNext(parts, w + 1);
      OffsetMore(|Concat(parts[..w])|, |parts[w]|, l.EntrySize());
      total := total + disks[w].cursors[p];
      w := w + 1;
    }
    assert parts[..|parts|] == parts;
    OrderIs(l, added, p);
  }

  lemma OffsetNone(size: nat)
    ensures Offset(0, size) == 0
  {
  }

  lemma OrderIs(l: Layout, added: seq<seq<Entry>>, p: nat)
    requires l.Valid()
    ensures PartitionOrder(l, added, p) == Concat(PartitionEntries(l, added, p))
  {
  }

  /** The largest partition: a buffer of this size holds the entries of every partition, and a
      smaller one does not. */
  method MaxPartitionEntries(l: Layout, disks: seq<Disk>, ghost added: seq<seq<Entry>>) returns (maxEntries: nat)
    requires Readable(l, disks, added)
    ensures l.Valid() && forall p: nat :: p < l.numPartitions ==> |PartitionOrder(l, added, p)| <= maxEntries
    ensures maxEntries > 0 ==> exists p: nat :: p < l.numPartitions && |PartitionOrder(l, added, p)| == maxEntries
  {
    hide *;
    ReadableIs(l, disks, added);
    maxEntries := 0;
    var p: nat := 0;
    while p < l.numPartitions
      invariant p <= l.numPartitions
      invariant forall q: nat :: q < p ==> |PartitionOrder(l, added, q)| <= maxEntries
      invariant maxEntries > 0 ==> exists q: nat :: q < p && |PartitionOrder(l, added, q)| == maxEntries
    {
      var total := PartitionBytes(l, disks, added, p);
      SomeSize(l);
      Unoffset(|PartitionOrder(l, added, p)|, l.EntrySize());
      if total / l.EntrySize() > maxEntries {
        maxEntries := total / l.EntrySize();
      }
      p := p + 1;
    }
  }

  lemma SomeSize(l: Layout)
    ensures l.EntrySize() > 0
  {
  }

  // ---------- The fast path ----------

  function ConcatAll(parts: seq<seq<seq<Entry>>>): (r: seq<seq<Entry>>)
    ensures |r| == |parts|
  {
    seq(|parts|, w requires 0 <= w < |parts| => Concat(parts[w]))
  }

  // All writers' buffered entries, partition by partition.
  method Collect(parts: seq<seq<seq<Entry>>>) returns (es: seq<Entry>)
    ensures es == Concat(ConcatAll(parts))
  {
    es := [];
    for w := 0 to |parts|
      invariant es == Concat(ConcatAll(parts)[..w])
    {
      ghost var before := es;
      for p := 0 to |parts[w]|
        invariant es == before + Concat(parts[w][..p])
      {
        ConcatNext(parts[w], p + 1);
        es := es + parts[w][p];
      }
      assert parts[w][..|parts[w]|] == parts[w];
      ConcatNext(ConcatAll(parts), w + 1);
    }
    assert ConcatAll(parts)[..|parts|] == ConcatAll(parts);
  }

  method CountBlocks(l: Layout, es: seq<Entry>) returns (counts: seq<nat>)
    requires l.Valid()
    ensures |counts| == l.numBlocks && forall b :: 0 <= b < l.numBlocks ==> counts[b] == |Group(l.BlockOf(), es, b)|
  {
    counts := seq(l.numBlocks, _ => 0);
    for i := 0 to |es|
      invariant |counts| == l.numBlocks
      invariant forall b :: 0 <= b < l.numBlocks ==> counts[b] == |Group(l.BlockOf(), es[..i], b)|
    {
      assert es[..i + 1] == es[..i] + [es[i]];
      forall b | 0 <= b < l.numBlocks
        ensures |Group(l.BlockOf(), es[..i + 1], b)| == counts[b] + if l.BlockOf()(es[i]) == b then 1 else 0
      {
        GroupAppend(l.BlockOf(), es[..i], es[i], b);
      }
      var b := Route(es[i].k0, l.numBlocks);
      counts := counts[b := counts[b] + 1];
    }
    assert es[..|es|] == es;
  }

  // Sorts entries by block, keeping their order within a block.
  method SortByBlock(l: Layout, es: seq<Entry>) returns (blocks: seq<seq<Entry>>)
    requires l.Valid()
    ensures |blocks| == l.numBlocks && forall b :: 0 <= b < l.numBlocks ==> blocks[b] == Group(l.BlockOf(), es, b)
  {
    hide Scattered, Group, Monotone;
    var n := l.numBlocks;
    var counts := CountBlocks(l, es);
    var cursors := new nat[n];
    var starts := Starts(counts, cursors);
    var sorted := new Entry[|es|](_ => Entry(0, 0, 0));
    StartsSum(l, es, 0, starts, n);
    GroupSizes(l.BlockOf(), es, 0, n);
    NothingScattered(l.BlockOf(), 0, sorted[..], starts);
    assert cursors[..] == starts[..|starts| - 1] && es[..0] == [] && es[0..|es|] == es;
    Scatter(l, 0, es, 0, es, sorted, cursors, starts);
    assert es[..|es|] == es;
    blocks := Slices(l, 0, sorted[..], starts, n, cursors[..], es);
  }

  /** Nothing was flushed: everything is sorted in memory, and each block receives the entries
      it would have read back. */
  method FastPath(l: Layout, parts: seq<seq<seq<Entry>>>, ghost added: seq<seq<Entry>>) returns (blocks: seq<seq<Entry>>)
    requires l.Valid() && |parts| == |added|
    requires forall w :: 0 <= w < |parts| ==> parts[w] == Groups(l.PartOf(), added[w], l.numPartitions)
    ensures |blocks| == l.numBlocks
    ensures forall b :: 0 <= b < l.numBlocks ==> TrimAll(l, blocks[b]) == BlockEntries(l, added, b)
  {
    var es := Collect(parts);
    blocks := SortByBlock(l, es);
    forall b | 0 <= b < l.numBlocks ensures TrimAll(l, blocks[b]) == BlockEntries(l, added, b) {
      CollectedBlock(l, parts, added, b);
    }
  }

  // The entries a writer still holds, region by region.
  method Held(ws: WriterState) returns (parts: seq<seq<Entry>>)
    requires ws.Valid() && !ws.everFlushed
    ensures ws.l.Valid() && parts == Groups(ws.l.PartOf(), ws.added, ws.l.numPartitions)
  {
    ws.NothingFlushed();
    var active := ws.Active();
    ws.ActiveValid();
    parts := [];
    hide Groups, WriterState.Valid;
    for p := 0 to ws.l.numPartitions
      invariant |parts| == p && forall q :: 0 <= q < p ==> parts[q] == active.Parts()[q]
    {
      OffsetFits(p, ws.l.numPartitions, ws.l.regionCap);
      parts := parts + [active.Part(p)];
    }
  }

  ghost function AddedBy(writers: seq<WriterState>): (r: seq<seq<Entry>>)
    reads writers
    ensures |r| == |writers|
  {
    seq(|writers|, w requires 0 <= w < |writers| reads writers => writers[w].added)
  }

  /** The fast path of the finish: no writer ever flushed, and the blocks hold what its keys
      would have been read back as. */
  method FinishFastPath(l: Layout, writers: seq<WriterState>) returns (blocks: seq<seq<Entry>>)
    requires l.Valid()
    requires forall w :: 0 <= w < |writers| ==> writers[w].l == l && writers[w].Valid() && !writers[w].everFlushed
    ensures |blocks| == l.numBlocks
    ensures forall b :: 0 <= b < l.numBlocks ==> TrimAll(l, blocks[b]) == BlockEntries(l, AddedBy(writers), b)
  {
    var parts: seq<seq<seq<Entry>>> := [];
    hide Groups, TrimAll, BlockEntries, WriterState.Valid;
    for w := 0 to |writers|
      invariant |parts| == w && forall v :: 0 <= v < w ==> parts[v] == Groups(l.PartOf(), AddedBy(writers)[v], l.numPartitions)
    {
      var held := Held(writers[w]);
      parts := parts + [held];
    }
    blocks := FastPath(l, parts, AddedBy(writers));
  }

  lemma CollectedBlock(l: Layout, parts: seq<seq<seq<Entry>>>, added: seq<seq<Entry>>, b: nat)
    requires l.Valid() && |parts| == |added| && b < l.numBlocks
    requires forall w :: 0 <= w < |parts| ==> parts[w] == Groups(l.PartOf(), added[w], l.numPartitions)
    ensures TrimAll(l, Group(l.BlockOf(), Concat(ConcatAll(parts)), b)) == BlockEntries(l, added, b)
  {
    GroupConcat(l.BlockOf(), ConcatAll(parts), b);
    var each := GroupEach(l.BlockOf(), ConcatAll(parts), b);
    forall w | 0 <= w < |added| ensures each[w] == Group(l.BlockOf(), added[w], b) {
      BlockThroughParts(l, added[w], b, l.numPartitions);
      assert parts[w][..l.numPartitions] == parts[w];
      BlockInRange(l, b);
      hide Group, Groups, Concat;
    }
    TrimConcat(l, each);
    assert BlockEntries(l, added, b) == Concat(TrimEach(l, each)) by {
      assert seq(|added|, w requires 0 <= w < |added| => TrimAll(l, Group(l.BlockOf(), added[w], b))) == TrimEach(l, each);
      hide Group, Concat;
    }
  }

  lemma BlockInRange(l: Layout, b: nat)
    requires l.Valid() && b < l.numBlocks
    ensures b / l.blocksPerPart < l.numPartitions
  {
    if b / l.blocksPerPart >= l.numPartitions {
      MulMonotone(l.numPartitions, b / l.blocksPerPart, l.blocksPerPart);
    }
  }

  function TrimEach(l: Layout, ss: seq<seq<Entry>>): (r: seq<seq<Entry>>)
    ensures |r| == |ss|
  {
    seq(|ss|, w requires 0 <= w < |ss| => TrimAll(l, ss[w]))
  }

  lemma {:induction false} TrimConcat(l: Layout, ss: seq<seq<Entry>>)
    ensures TrimAll(l, Concat(ss)) == Concat(TrimEach(l, ss))
  {
    if |ss| > 0 {
      var n := |ss| - 1;
      TrimConcat(l, ss[..n]);
      assert TrimEach(l, ss)[..n] == TrimEach(l, ss[..n]);
      assert TrimAll(l, Concat(ss[..n]) + ss[n]) == TrimAll(l, Concat(ss[..n])) + TrimAll(l, ss[n]);
    }
  }

  // ---------- Conservation ----------

  /** What a block receives is what was added for it: the entries routed to it among all that
      the writers were given, writer after writer. */
  lemma EntriesOfBlock(l: Layout, added: seq<seq<Entry>>, b: nat)
    ensures BlockEntries(l, added, b) == TrimAll(l, Group(l.BlockOf(), Concat(added), b))
  {
    GroupConcat(l.BlockOf(), added, b);
    var each := GroupEach(l.BlockOf(), added, b);
    TrimConcat(l, each);
    assert seq(|added|, w requires 0 <= w < |added| => TrimAll(l, Group(l.BlockOf(), added[w], b))) == TrimEach(l, each) by {
      hide Group;
    }
  }

  /** If the merged counts are accepted, every partition's counts are the sizes of its blocks:
      no 16-bit counter wrapped. */
  lemma AcceptedCountsMatch(l: Layout, disks: seq<Disk>, added: seq<seq<Entry>>, p: nat, counts: seq<nat>)
    requires AllFlushed(l, disks, added) && p < l.numPartitions && RowIs(l, disks, p, counts)
    requires MergedTotal(l, disks) == TotalKeys(added)
    ensures NoWrap(l, added) && CountsMatch(l, added, p, counts)
  {
    SumDetectsWrap(l, disks, added);
    forall local | 0 <= local < l.blocksPerPart ensures counts[local] == |BlockEntries(l, added, l.BlockAt(p, local))| {
      MergedCount(l, disks, added, p, local);
    }
    hide AllFlushed, NoWrap, MergedTotal, TotalKeys, BlockEntries, WriterCounters, SumTo;
  }
}
