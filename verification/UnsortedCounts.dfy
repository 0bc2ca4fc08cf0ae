/** The merged block counts: they sum to the number of keys exactly if no 16-bit counter
    wrapped. */
module UnsortedCounts {
  import opened Basics
  import opened Encoding
  import opened Grouping
  import opened IndexFormat
  import opened Routing
  import opened UnsortedLayout
  import opened UnsortedBlocks

  // ---------- Counting ----------

  function SumTo(n: nat, f: nat -> nat): nat {
    if n == 0 then 0 else SumTo(n - 1, f) + f(n - 1)
  }

  lemma {:induction false} SumSame(n: nat, f: nat -> nat, g: nat -> nat)
    requires forall i: nat :: i < n ==> f(i) == g(i)
    ensures SumTo(n, f) == SumTo(n, g)
  {
    if n > 0 {
      SumSame(n - 1, f, g);
    }
  }

  // A sum of smaller terms is as large only if all terms are equal.
  lemma {:induction false} SumBelow(n: nat, f: nat -> nat, g: nat -> nat)
    requires forall i: nat :: i < n ==> f(i) <= g(i)
    ensures SumTo(n, f) <= SumTo(n, g)
    ensures SumTo(n, f) == SumTo(n, g) <==> forall i: nat :: i < n ==> f(i) == g(i)
  {
    if n > 0 {
      SumBelow(n - 1, f, g);
    }
  }

  lemma {:induction false} SumAdds(n: nat, f: nat -> nat, g: nat -> nat)
    ensures SumTo(n, (i: nat) => f(i) + g(i)) == SumTo(n, f) + SumTo(n, g)
  {
    if n > 0 {
      SumAdds(n - 1, f, g);
    }
  }

  lemma {:induction false} SumZero(n: nat)
    ensures SumTo(n, (i: nat) => 0) == 0
  {
    if n > 0 {
      SumZero(n - 1);
    }
  }

  function Row(f: (nat, nat) -> nat, i: nat): nat -> nat { (k: nat) => f(i, k) }

  function Column(f: (nat, nat) -> nat, k: nat): nat -> nat { (i: nat) => f(i, k) }

  function Rows(m: nat, f: (nat, nat) -> nat): nat -> nat { (i: nat) => SumTo(m, Row(f, i)) }

  function Columns(n: nat, f: (nat, nat) -> nat): nat -> nat { (k: nat) => SumTo(n, Column(f, k)) }

  lemma {:induction false} SumSwap(n: nat, m: nat, f: (nat, nat) -> nat)
    ensures SumTo(n, Rows(m, f)) == SumTo(m, Columns(n, f))
  {
    if n == 0 {
      SumZero(m);
      SumSame(m, Columns(0, f), (k: nat) => 0);
    } else {
      SumSwap(n - 1, m, f);
      SumAdds(m, Columns(n - 1, f), Row(f, n - 1));
      SumSame(m, Columns(n, f), (k: nat) => Columns(n - 1, f)(k) + Row(f, n - 1)(k));
    }
  }

  // ---------- Counts that wrapped ----------

  // The counter of block `local` of partition p at writer w, zero outside the layout.
  function CounterAt(disks: seq<Disk>, w: nat, p: nat, local: nat): nat {
    if w < |disks| && p < |disks[w].counts| && local < |disks[w].counts[p]| then disks[w].counts[p][local] else 0
  }

  function Counters(disks: seq<Disk>, p: nat, w: nat): nat -> nat { (local: nat) => CounterAt(disks, w, p, local) }

  function WriterTotals(l: Layout, disks: seq<Disk>, p: nat): nat -> nat {
    (w: nat) => SumTo(l.blocksPerPart, Counters(disks, p, w))
  }

  function PartTotals(l: Layout, disks: seq<Disk>): nat -> nat { (p: nat) => SumTo(|disks|, WriterTotals(l, disks, p)) }

  // The sum over all counters, in the order they are merged.
  function MergedTotal(l: Layout, disks: seq<Disk>): nat { SumTo(l.numPartitions, PartTotals(l, disks)) }

  // How many entries of a block writer w was given.
  ghost function BlockSize(l: Layout, added: seq<seq<Entry>>, w: nat, b: nat): nat {
    if w < |added| then |Group(l.BlockOf(), added[w], b)| else 0
  }

  ghost function Size(added: seq<seq<Entry>>, w: nat): nat {
    if w < |added| then |added[w]| else 0
  }

  ghost function TotalKeys(added: seq<seq<Entry>>): nat {
    SumTo(|added|, (w: nat) => Size(added, w))
  }

  // Every writer has flushed what it was given.
  ghost predicate AllFlushed(l: Layout, disks: seq<Disk>, added: seq<seq<Entry>>) {
    && l.Valid() && |disks| == |added|
    && forall w :: 0 <= w < |disks| ==> Holds(l, disks[w], Groups(l.PartOf(), added[w], l.numPartitions))
  }

  // No writer was given 65536 entries of one block.
  ghost predicate NoWrap(l: Layout, added: seq<seq<Entry>>) {
    forall w: nat, b: nat :: w < |added| ==> BlockSize(l, added, w, b) < 0x1_0000
  }

  lemma CounterIs(l: Layout, disks: seq<Disk>, added: seq<seq<Entry>>, w: nat, p: nat, local: nat)
    requires AllFlushed(l, disks, added) && w < |disks| && p < l.numPartitions && local < l.blocksPerPart
    ensures CounterAt(disks, w, p, local) == U16(BlockSize(l, added, w, l.BlockAt(p, local)))
  {
    assert Holds(l, disks[w], Groups(l.PartOf(), added[w], l.numPartitions));
    assert HoldsPart(l, disks[w], p, Group(l.PartOf(), added[w], p));
    DivUnique(l.BlockAt(p, local), l.blocksPerPart, p, local);
    BlockWithinPart(l, added[w], l.BlockAt(p, local));
    hide Group, Encoded;
  }

  lemma {:induction false} SumOneMore(n: nat, g: nat -> nat, at: nat)
    ensures SumTo(n, (i: nat) => g(i) + if i == at then 1 else 0) == SumTo(n, g) + if at < n then 1 else 0
  {
    if n > 0 {
      SumOneMore(n - 1, g, at);
    }
  }

  ghost function GroupSize<T>(f: T -> nat, s: seq<T>, base: nat): nat -> nat {
    (g: nat) => |Group(f, s, base + g)|
  }

  lemma GroupSizeStep<T>(f: T -> nat, front: seq<T>, last: T, base: nat, g: nat)
    requires base <= f(last)
    ensures GroupSize(f, front + [last], base)(g) == GroupSize(f, front, base)(g) + if g == f(last) - base then 1 else 0
  {
    GroupAppend(f, front, last, base + g);
  }

  // Groups share the items among them.
  lemma {:induction false} GroupSizes<T>(f: T -> nat, s: seq<T>, base: nat, n: nat)
    requires forall i :: 0 <= i < |s| ==> base <= f(s[i]) < base + n
    ensures SumTo(n, GroupSize(f, s, base)) == |s|
  {
    if |s| == 0 {
      forall g: nat | g < n ensures GroupSize(f, s, base)(g) == 0 { assert Group(f, s, base + g) == []; }
      SumZero(n);
      SumSame(n, GroupSize(f, s, base), (g: nat) => 0);
    } else {
      var front, last := s[..|s| - 1], s[|s| - 1];
      GroupSizes(f, front, base, n);
      var at := f(last) - base;
      assert s == front + [last];
      forall g: nat | g < n ensures GroupSize(f, s, base)(g) == GroupSize(f, front, base)(g) + if g == at then 1 else 0 {
        GroupSizeStep(f, front, last, base, g);
      }
      hide GroupSize, SumTo;
      SumOneMore(n, GroupSize(f, front, base), at);
      SumSame(n, GroupSize(f, s, base), (g: nat) => GroupSize(f, front, base)(g) + if g == at then 1 else 0);
    }
  }

  // The blocks of a partition share its entries.
  lemma PartSize(l: Layout, s: seq<Entry>, p: nat)
    requires l.Valid() && forall i :: 0 <= i < |s| ==> l.PartOf()(s[i]) == p
    ensures SumTo(l.blocksPerPart, GroupSize(l.BlockOf(), s, l.BlockAt(p, 0))) == |s|
  {
    forall i | 0 <= i < |s| ensures l.BlockAt(p, 0) <= l.BlockOf()(s[i]) < l.BlockAt(p, 0) + l.blocksPerPart {
      PartInRange(l, s[i]);
    }
    hide Group, Route, GroupSize, SumTo;
    GroupSizes(l.BlockOf(), s, l.BlockAt(p, 0), l.blocksPerPart);
  }

  // The partitions share a writer's entries.
  lemma PartSizes(l: Layout, s: seq<Entry>)
    requires l.Valid()
    ensures SumTo(l.numPartitions, GroupSize(l.PartOf(), s, 0)) == |s|
  {
    forall i | 0 <= i < |s| ensures l.PartOf()(s[i]) < l.numPartitions { PartInRange(l, s[i]); }
    hide Group, Route, GroupSize, SumTo;
    GroupSizes(l.PartOf(), s, 0, l.numPartitions);
  }

  // What one writer's counters of one partition would sum to without wrapping.
  ghost function TrueParts(l: Layout, added: seq<seq<Entry>>, p: nat): nat -> nat
    requires l.blocksPerPart > 0
  {
    (w: nat) => if w < |added| then |Group(l.PartOf(), added[w], p)| else 0
  }

  ghost function TrueTotals(l: Layout, added: seq<seq<Entry>>): nat -> nat
    requires l.blocksPerPart > 0
  {
    (p: nat) => SumTo(|added|, TrueParts(l, added, p))
  }

  lemma CounterBelow(l: Layout, disks: seq<Disk>, added: seq<seq<Entry>>, w: nat, p: nat, local: nat)
    requires AllFlushed(l, disks, added) && w < |disks| && p < l.numPartitions && local < l.blocksPerPart
    ensures var part := Group(l.PartOf(), added[w], p);
            var size := BlockSize(l, added, w, l.BlockAt(p, local));
            && GroupSize(l.BlockOf(), part, l.BlockAt(p, 0))(local) == size
            && Counters(disks, p, w)(local) == U16(size) <= size
            && (Counters(disks, p, w)(local) == size <==> size < 0x1_0000)
  {
    CounterIs(l, disks, added, w, p, local);
    DivUnique(l.BlockAt(p, local), l.blocksPerPart, p, local);
    BlockWithinPart(l, added[w], l.BlockAt(p, local));
    assert l.BlockAt(p, 0) + local == l.BlockAt(p, local);
    hide Group, AllFlushed, Offset, CounterAt;
  }

  // Writer w was given fewer than 65536 entries of every block of partition p.
  ghost predicate PartFits(l: Layout, added: seq<seq<Entry>>, w: nat, p: nat) {
    forall local: nat :: local < l.blocksPerPart ==> BlockSize(l, added, w, l.BlockAt(p, local)) < 0x1_0000
  }

  // One writer's counters of one partition reach its number of entries exactly if none wrapped.
  lemma WriterTotalBelow(l: Layout, disks: seq<Disk>, added: seq<seq<Entry>>, w: nat, p: nat)
    requires AllFlushed(l, disks, added) && w < |disks| && p < l.numPartitions
    ensures l.Valid() && WriterTotals(l, disks, p)(w) <= TrueParts(l, added, p)(w)
    ensures WriterTotals(l, disks, p)(w) == TrueParts(l, added, p)(w) <==> PartFits(l, added, w, p)
  {
    var part := Group(l.PartOf(), added[w], p);
    forall i: nat | i < |part| ensures l.PartOf()(part[i]) == p { GroupMember(l.PartOf(), added[w], p, i); }
    PartSize(l, part, p);
    var f, g := Counters(disks, p, w), GroupSize(l.BlockOf(), part, l.BlockAt(p, 0));
    hide Group, AllFlushed, BlockSize, Counters, SumTo, Offset, GroupSize;
    forall local: nat | local < l.blocksPerPart
      ensures f(local) <= g(local) && (f(local) == g(local) <==> BlockSize(l, added, w, l.BlockAt(p, local)) < 0x1_0000)
    {
      CounterBelow(l, disks, added, w, p, local);
    }
    SumBelow(l.blocksPerPart, f, g);
  }

  lemma PartTotalBelow(l: Layout, disks: seq<Disk>, added: seq<seq<Entry>>, p: nat)
    requires AllFlushed(l, disks, added) && p < l.numPartitions
    ensures l.Valid() && PartTotals(l, disks)(p) <= TrueTotals(l, added)(p)
    ensures PartTotals(l, disks)(p) == TrueTotals(l, added)(p) <==> AllFit(l, added, p)
  {
    FlushedLengths(l, disks, added);
    hide WriterTotals, TrueParts, AllFlushed, SumTo, PartFits;
    forall w: nat | w < |disks|
      ensures WriterTotals(l, disks, p)(w) <= TrueParts(l, added, p)(w)
      ensures WriterTotals(l, disks, p)(w) == TrueParts(l, added, p)(w) <==> PartFits(l, added, w, p)
    {
      WriterTotalBelow(l, disks, added, w, p);
    }
    SumBelow(|disks|, WriterTotals(l, disks, p), TrueParts(l, added, p));
  }

  lemma FlushedLengths(l: Layout, disks: seq<Disk>, added: seq<seq<Entry>>)
    requires AllFlushed(l, disks, added)
    ensures l.Valid() && |disks| == |added|
  {
  }

  ghost function PartSizeAt(l: Layout, added: seq<seq<Entry>>): (nat, nat) -> nat
    requires l.blocksPerPart > 0
  {
    (p: nat, w: nat) => TrueParts(l, added, p)(w)
  }

  lemma PartSizesOf(l: Layout, added: seq<seq<Entry>>, w: nat)
    requires l.Valid() && w < |added|
    ensures Columns(l.numPartitions, PartSizeAt(l, added))(w) == |added[w]|
  {
    var f, g := Column(PartSizeAt(l, added), w), GroupSize(l.PartOf(), added[w], 0);
    hide *;
    PartSizes(l, added[w]);
    forall p: nat ensures f(p) == g(p) { PartSizeIs(l, added, w, p); }
    SumSame(l.numPartitions, f, g);
    ColumnsIs(l.numPartitions, PartSizeAt(l, added), w);
  }

  lemma ColumnsIs(n: nat, f: (nat, nat) -> nat, k: nat)
    ensures Columns(n, f)(k) == SumTo(n, Column(f, k))
  {
    hide SumTo;
  }

  lemma PartSizeIs(l: Layout, added: seq<seq<Entry>>, w: nat, p: nat)
    requires l.blocksPerPart > 0 && w < |added|
    ensures Column(PartSizeAt(l, added), w)(p) == GroupSize(l.PartOf(), added[w], 0)(p)
  {
    hide Group;
    assert TrueParts(l, added, p)(w) == |Group(l.PartOf(), added[w], p)|;
    assert PartSizeAt(l, added)(p, w) == TrueParts(l, added, p)(w);
    assert Column(PartSizeAt(l, added), w)(p) == PartSizeAt(l, added)(p, w);
    assert GroupSize(l.PartOf(), added[w], 0)(p) == |Group(l.PartOf(), added[w], 0 + p)|;
  }

  lemma TrueTotalRow(l: Layout, added: seq<seq<Entry>>, p: nat)
    requires l.Valid()
    ensures TrueTotals(l, added)(p) == Rows(|added|, PartSizeAt(l, added))(p)
  {
    var g := Row(PartSizeAt(l, added), p);
    forall w: nat ensures TrueParts(l, added, p)(w) == g(w) { hide TrueParts; }
    hide SumTo, TrueParts, PartSizeAt, Row;
    SumSame(|added|, TrueParts(l, added, p), g);
  }

  // The true sizes add up to the number of keys, partition by partition.
  lemma TrueTotal(l: Layout, added: seq<seq<Entry>>)
    requires l.Valid()
    ensures SumTo(l.numPartitions, TrueTotals(l, added)) == TotalKeys(added)
  {
    var h := PartSizeAt(l, added);
    hide SumTo, TrueTotals, PartSizeAt, Rows, Columns;
    forall p: nat | p < l.numPartitions ensures TrueTotals(l, added)(p) == Rows(|added|, h)(p) { TrueTotalRow(l, added, p); }
    SumSame(l.numPartitions, TrueTotals(l, added), Rows(|added|, h));
    SumSwap(l.numPartitions, |added|, h);
    forall w: nat | w < |added| ensures Columns(l.numPartitions, h)(w) == Size(added, w) { PartSizesOf(l, added, w); }
    SumSame(|added|, Columns(l.numPartitions, h), (w: nat) => Size(added, w));
  }

  // Every writer's counters of the partition fit.
  ghost predicate AllFit(l: Layout, added: seq<seq<Entry>>, p: nat) {
    forall w: nat :: w < |added| ==> PartFits(l, added, w, p)
  }

  /** The merged 16-bit counts sum to the number of keys exactly if no counter wrapped. */
  lemma SumDetectsWrap(l: Layout, disks: seq<Disk>, added: seq<seq<Entry>>)
    requires AllFlushed(l, disks, added)
    ensures MergedTotal(l, disks) == TotalKeys(added) <==> NoWrap(l, added)
  {
    FlushedLengths(l, disks, added);
    TrueTotal(l, added);
    FitsEverywhere(l, added);
    hide PartTotals, TrueTotals, SumTo, AllFlushed, NoWrap, AllFit, TotalKeys;
    forall p: nat | p < l.numPartitions
      ensures PartTotals(l, disks)(p) <= TrueTotals(l, added)(p)
      ensures PartTotals(l, disks)(p) == TrueTotals(l, added)(p) <==> AllFit(l, added, p)
    {
      PartTotalBelow(l, disks, added, p);
    }
    SumBelow(l.numPartitions, PartTotals(l, disks), TrueTotals(l, added));
  }

  // Every block lies in some partition.
  lemma FitsEverywhere(l: Layout, added: seq<seq<Entry>>)
    requires l.Valid()
    ensures NoWrap(l, added) <==> forall p: nat :: p < l.numPartitions ==> AllFit(l, added, p)
  {
    hide BlockSize;
    if forall p: nat :: p < l.numPartitions ==> AllFit(l, added, p) {
      forall w: nat, b: nat | w < |added| ensures BlockSize(l, added, w, b) < 0x1_0000 {
        BlockFits(l, added, w, b);
      }
    }
  }

  lemma BlockFits(l: Layout, added: seq<seq<Entry>>, w: nat, b: nat)
    requires l.Valid() && w < |added| && forall p: nat :: p < l.numPartitions ==> AllFit(l, added, p)
    ensures BlockSize(l, added, w, b) < 0x1_0000
  {
    if BlockSize(l, added, w, b) > 0 {
      var p := b / l.blocksPerPart;
      BlockHasPart(l, added[w], b);
      Rejoin(b, l.blocksPerPart);
      hide BlockSize, Offset;
      assert AllFit(l, added, p) && PartFits(l, added, w, p);
      assert l.BlockAt(p, b % l.blocksPerPart) == b;
    }
  }

  lemma Rejoin(b: nat, m: nat)
    requires m > 0
    ensures Offset(b / m, m) + b % m == b
  {
  }

  lemma BlockHasPart(l: Layout, s: seq<Entry>, b: nat)
    requires l.Valid() && |Group(l.BlockOf(), s, b)| > 0
    ensures b / l.blocksPerPart < l.numPartitions
  {
    GroupMember(l.BlockOf(), s, b, 0);
    PartInRange(l, Group(l.BlockOf(), s, b)[0]);
  }
}
