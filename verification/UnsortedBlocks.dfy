/** Which entries each block receives: the entries routed to it, writer by writer in the order
    added, through partitions, counts and scatter. */
module UnsortedBlocks {
  import opened Basics
  import opened Encoding
  import opened Grouping
  import opened IndexFormat
  import opened Routing
  import opened UnsortedLayout
  import opened UnsortedReader

  // ---------- Concatenations and groups ----------

  function Concat<T>(ss: seq<seq<T>>): seq<T> {
    if |ss| == 0 then [] else Concat(ss[..|ss| - 1]) + ss[|ss| - 1]
  }

  function GroupEach<T>(f: T -> nat, ss: seq<seq<T>>, b: nat): (r: seq<seq<T>>)
    ensures |r| == |ss|
  {
    seq(|ss|, w requires 0 <= w < |ss| => Group(f, ss[w], b))
  }

  lemma {:induction false} GroupJoin<T>(f: T -> nat, s: seq<T>, t: seq<T>, b: nat)
    ensures Group(f, s + t, b) == Group(f, s, b) + Group(f, t, b)
  {
    if |t| == 0 {
      assert s + t == s;
    } else {
      GroupJoin(f, s, t[..|t| - 1], b);
      assert (s + t)[..|s + t| - 1] == s + t[..|t| - 1];
    }
  }

  lemma {:induction false} GroupConcat<T>(f: T -> nat, ss: seq<seq<T>>, b: nat)
    ensures Group(f, Concat(ss), b) == Concat(GroupEach(f, ss, b))
  {
    if |ss| > 0 {
      var n := |ss| - 1;
      GroupConcat(f, ss[..n], b);
      GroupJoin(f, Concat(ss[..n]), ss[n], b);
      assert GroupEach(f, ss, b)[..n] == GroupEach(f, ss[..n], b);
    }
  }

  // A group within a coarser group that holds all of it, or none of it.
  lemma {:induction false} GroupWithin<T(!new)>(f: T -> nat, g: T -> nat, s: seq<T>, b: nat, p: nat, all: bool)
    requires forall x :: f(x) == b ==> (g(x) == p) == all
    ensures Group(f, Group(g, s, p), b) == if all then Group(f, s, b) else []
  {
    if |s| > 0 {
      var front, last := s[..|s| - 1], s[|s| - 1];
      GroupWithin(f, g, front, b, p, all);
      assert s == front + [last];
      GroupAppend(g, front, last, p);
      GroupAppend(f, front, last, b);
      GroupAppend(f, Group(g, front, p), last, b);
      hide Group;
    }
  }

  // Entries of a block all lie in its partition.
  lemma BlockWithinPart(l: Layout, s: seq<Entry>, b: nat)
    requires l.Valid()
    ensures Group(l.BlockOf(), Group(l.PartOf(), s, b / l.blocksPerPart), b) == Group(l.BlockOf(), s, b)
  {
    GroupWithin(l.BlockOf(), l.PartOf(), s, b, b / l.blocksPerPart, true);
  }

  lemma BlockElsewhere(l: Layout, s: seq<Entry>, p: nat, b: nat)
    requires l.Valid() && p != b / l.blocksPerPart
    ensures Group(l.BlockOf(), Group(l.PartOf(), s, p), b) == []
  {
    GroupWithin(l.BlockOf(), l.PartOf(), s, b, p, false);
  }

  // Going through the partitions one by one gives a block its entries in the order added.
  lemma {:induction false} BlockThroughParts(l: Layout, s: seq<Entry>, b: nat, n: nat)
    requires l.Valid() && n <= l.numPartitions
    ensures Group(l.BlockOf(), Concat(Groups(l.PartOf(), s, l.numPartitions)[..n]), b)
            == if b / l.blocksPerPart < n then Group(l.BlockOf(), s, b) else []
  {
    if n > 0 {
      var parts := Groups(l.PartOf(), s, l.numPartitions);
      hide *;
      BlockThroughParts(l, s, b, n - 1);
      ConcatNext(parts, n);
      GroupJoin(l.BlockOf(), Concat(parts[..n - 1]), parts[n - 1], b);
      BlockFromPart(l, s, b, n - 1);
    } else {
      assert Concat(Groups(l.PartOf(), s, l.numPartitions)[..0]) == [];
    }
  }

  lemma BlockFromPart(l: Layout, s: seq<Entry>, b: nat, p: nat)
    requires l.Valid() && p < l.numPartitions
    ensures Group(l.BlockOf(), Groups(l.PartOf(), s, l.numPartitions)[p], b)
            == if b / l.blocksPerPart == p then Group(l.BlockOf(), s, b) else []
  {
    if b / l.blocksPerPart == p {
      BlockWithinPart(l, s, b);
    } else {
      BlockElsewhere(l, s, p, b);
    }
    hide Group;
  }

  lemma ConcatNext<T>(ss: seq<seq<T>>, n: nat)
    requires 0 < n <= |ss|
    ensures Concat(ss[..n]) == Concat(ss[..n - 1]) + ss[n - 1]
  {
    assert ss[..n][..n - 1] == ss[..n - 1];
  }

  lemma {:induction false} GroupTrim(l: Layout, s: seq<Entry>, b: nat)
    ensures Group(l.BlockOf(), TrimAll(l, s), b) == TrimAll(l, Group(l.BlockOf(), s, b))
  {
    if |s| > 0 {
      var front, last := s[..|s| - 1], s[|s| - 1];
      GroupTrim(l, front, b);
      assert s == front + [last];
      GroupAppend(l.BlockOf(), front, last, b);
      TrimAppend(l, front, last);
      GroupAppend(l.BlockOf(), TrimAll(l, front), Trim(l, last), b);
      TrimAppend(l, Group(l.BlockOf(), front, b), last);
      assert l.BlockOf()(Trim(l, last)) == l.BlockOf()(last);
      hide Group, Route, TrimAll, Trim;
    }
  }

  lemma TrimAppend(l: Layout, s: seq<Entry>, e: Entry)
    ensures TrimAll(l, s + [e]) == TrimAll(l, s) + [Trim(l, e)]
  {
  }

  /** The entries of block b: for each writer in turn, what it was given for the block, as
      stored on disk. */
  ghost function BlockEntries(l: Layout, added: seq<seq<Entry>>, b: nat): seq<Entry> {
    Concat(seq(|added|, w requires 0 <= w < |added| => TrimAll(l, Group(l.BlockOf(), added[w], b))))
  }

  // Partition p of all writers, as read back.
  ghost function PartitionEntries(l: Layout, added: seq<seq<Entry>>, p: nat): (r: seq<seq<Entry>>)
    requires l.Valid()
    ensures |r| == |added|
  {
    seq(|added|, w requires 0 <= w < |added| => TrimAll(l, Group(l.PartOf(), added[w], p)))
  }

  lemma BlockFromPartition(l: Layout, added: seq<seq<Entry>>, b: nat)
    requires l.Valid()
    ensures Group(l.BlockOf(), Concat(PartitionEntries(l, added, b / l.blocksPerPart)), b) == BlockEntries(l, added, b)
  {
    var p := b / l.blocksPerPart;
    var parts := PartitionEntries(l, added, p);
    GroupConcat(l.BlockOf(), parts, b);
    var each := seq(|added|, w requires 0 <= w < |added| => TrimAll(l, Group(l.BlockOf(), added[w], b)));
    forall w | 0 <= w < |added| ensures GroupEach(l.BlockOf(), parts, b)[w] == each[w] {
      GroupTrim(l, Group(l.PartOf(), added[w], p), b);
      BlockWithinPart(l, added[w], b);
      hide Group, TrimAll;
    }
    assert GroupEach(l.BlockOf(), parts, b) == each;
  }
}
