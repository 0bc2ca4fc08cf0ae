/** The counting sort that orders buckets by size, largest first and equal sizes
    by index. */
module CountingSort {
  import opened Basics
  import opened PtrSolve

  // A bucket's size as the difference of two uint16 cumulative counts.
  function SizesOf(starts: seq<nat>): (r: seq<nat>)
    requires |starts| > 0
    ensures |r| == |starts| - 1
  {
    seq(|starts| - 1, i requires 0 <= i < |starts| - 1 => (starts[i + 1] as int - starts[i] as int) % 0x1_0000)
  }

  // How many of the first i sizes equal, respectively exceed, s.
  ghost function CountEq(sizes: seq<nat>, s: nat, i: nat): nat
    requires i <= |sizes|
  {
    if i == 0 then 0 else CountEq(sizes, s, i - 1) + if sizes[i - 1] == s then 1 else 0
  }

  ghost function CountGt(sizes: seq<nat>, s: int, i: nat): nat
    requires i <= |sizes|
  {
    if i == 0 then 0 else CountGt(sizes, s, i - 1) + if sizes[i - 1] > s then 1 else 0
  }

  // The number of buckets ahead of bucket i.
  ghost function Rank(sizes: seq<nat>, i: nat): nat
    requires i < |sizes|
  {
    CountGt(sizes, sizes[i], |sizes|) + CountEq(sizes, sizes[i], i)
  }

  lemma {:induction false} CountEqGrows(sizes: seq<nat>, s: nat, i: nat, j: nat)
    requires i < j <= |sizes| && sizes[i] == s
    ensures CountEq(sizes, s, i) < CountEq(sizes, s, j)
    decreases j
  {
    if i < j - 1 {
      CountEqGrows(sizes, s, i, j - 1);
    }
  }

  lemma {:induction false} CountGtSplit(sizes: seq<nat>, s: nat, t: nat, i: nat)
    requires t < s && i <= |sizes|
    ensures CountGt(sizes, t, i) >= CountGt(sizes, s, i) + CountEq(sizes, s, i)
  {
    if i > 0 {
      CountGtSplit(sizes, s, t, i - 1);
    }
  }

  lemma {:induction false} CountGtPrevious(sizes: seq<nat>, s: nat, i: nat)
    requires i <= |sizes|
    ensures CountGt(sizes, s - 1, i) == CountGt(sizes, s, i) + CountEq(sizes, s, i) <= i
  {
    if i > 0 {
      CountGtPrevious(sizes, s, i - 1);
    }
  }

  lemma {:induction false} CountGtZero(sizes: seq<nat>, s: nat, i: nat)
    requires i <= |sizes| && forall k :: 0 <= k < i ==> sizes[k] <= s
    ensures CountGt(sizes, s, i) == 0
  {
    if i > 0 {
      CountGtZero(sizes, s, i - 1);
    }
  }

  lemma RankBelow(sizes: seq<nat>, i: nat)
    requires i < |sizes|
    ensures Rank(sizes, i) < |sizes|
  {
    CountEqGrows(sizes, sizes[i], i, |sizes|);
    CountGtPrevious(sizes, sizes[i], |sizes|);
  }

  lemma RankMonotone(sizes: seq<nat>, a: nat, b: nat)
    requires a < |sizes| && b < |sizes| && Ahead(sizes, a, b)
    ensures Rank(sizes, a) < Rank(sizes, b)
  {
    if sizes[a] == sizes[b] {
      CountEqGrows(sizes, sizes[a], a, b);
    } else {
      CountEqGrows(sizes, sizes[a], a, |sizes|);
      CountGtSplit(sizes, sizes[a], sizes[b], |sizes|);
    }
  }

  lemma RanksDiffer(sizes: seq<nat>, a: nat, b: nat)
    requires a < |sizes| && b < |sizes| && a != b
    ensures Rank(sizes, a) != Rank(sizes, b)
  {
    if Ahead(sizes, a, b) {
      RankMonotone(sizes, a, b);
    } else {
      RankMonotone(sizes, b, a);
    }
  }

  // Buckets stored at their ranks are in order.
  lemma RankedIsOrder(sizes: seq<nat>, order: seq<nat>)
    requires |order| == |sizes|
    requires forall i :: 0 <= i < |sizes| ==> Rank(sizes, i) < |order| && order[Rank(sizes, i)] == i
    ensures IsOrder(sizes, order)
  {
    hide Rank;
    var n := |sizes|;
    var ranks := seq(n, i requires 0 <= i < n => Rank(sizes, i));
    assert NoDup(ranks) by {
      forall i, j | 0 <= i < j < n ensures ranks[i] != ranks[j] { RanksDiffer(sizes, i, j); }
    }
    Pigeonhole(ranks);
    forall p | 0 <= p < n ensures order[p] < n && Rank(sizes, order[p]) == p {
      assert p in Range(n);
      var i :| 0 <= i < n && ranks[i] == p;
      assert order[Rank(sizes, i)] == i;
    }
    forall p, q | 0 <= p < q < n ensures Ahead(sizes, order[p], order[q]) {
      if !Ahead(sizes, order[p], order[q]) {
        assert order[p] != order[q];
        RankMonotone(sizes, order[q], order[p]);
      }
    }
  }

  lemma ZeroSizesOrder(sizes: seq<nat>, order: seq<nat>)
    requires |order| == |sizes|
    requires forall i :: 0 <= i < |sizes| ==> sizes[i] == 0 && order[i] == i
    ensures IsOrder(sizes, order)
  {
  }

  method MaxOf(sizes: seq<nat>) returns (max: nat)
    ensures forall i :: 0 <= i < |sizes| ==> sizes[i] <= max
    ensures max == 0 || max in sizes
  {
    max := 0;
    for i := 0 to |sizes|
      invariant forall k :: 0 <= k < i ==> sizes[k] <= max
      invariant max == 0 || max in sizes
    {
      if sizes[i] > max {
        max := sizes[i];
      }
    }
  }

  /** Sorts the buckets delimited by `starts` into `result`, using two scratch
      buffers that must reach the largest size. */
  method CountingSortBucketsInto(starts: seq<nat>, result: array<nat>, counts: array<nat>, positions: array<nat>)
    requires 0 < |starts| <= 0x1_0000 && result.Length >= |starts| - 1
    requires result != counts && result != positions && counts != positions
    requires forall i :: 0 <= i < |starts| - 1 ==> SizesOf(starts)[i] < counts.Length && SizesOf(starts)[i] < positions.Length
    modifies result, counts, positions
    ensures IsOrder(SizesOf(starts), result[..|starts| - 1])
  {
    var n := |starts| - 1;
    if n <= 0 {
      return;
    }
    var sizes := SizesOf(starts);
    var maxSize := MaxOf(sizes);
    if maxSize == 0 {
      for i := 0 to n
        invariant forall k :: 0 <= k < i ==> result[k] == k
      {
        result[i] := i % 0x1_0000;
      }
      ZeroSizesOrder(sizes, result[..n]);
      return;
    }
    CountSizes(sizes, maxSize, counts);
    ComputePositions(sizes, maxSize, counts, positions);
    PlaceBuckets(sizes, maxSize, result, positions);
    RankedIsOrder(sizes, result[..n]);
  }

  method CountSizes(sizes: seq<nat>, maxSize: nat, counts: array<nat>)
    requires maxSize < counts.Length && forall i :: 0 <= i < |sizes| ==> sizes[i] <= maxSize
    modifies counts
    ensures forall s :: 0 <= s <= maxSize ==> counts[s] == CountEq(sizes, s, |sizes|)
  {
    for i := 0 to maxSize + 1
      invariant forall s :: 0 <= s < i ==> counts[s] == 0
    {
      counts[i] := 0;
    }
    for i := 0 to |sizes|
      invariant forall s :: 0 <= s <= maxSize ==> counts[s] == CountEq(sizes, s, i)
    {
      counts[sizes[i]] := counts[sizes[i]] + 1;
    }
  }

  method ComputePositions(sizes: seq<nat>, maxSize: nat, counts: array<nat>, positions: array<nat>)
    requires counts != positions && maxSize < counts.Length && maxSize < positions.Length
    requires forall i :: 0 <= i < |sizes| ==> sizes[i] <= maxSize
    requires forall s :: 0 <= s <= maxSize ==> counts[s] == CountEq(sizes, s, |sizes|)
    modifies positions
    ensures forall s :: 0 <= s <= maxSize ==> positions[s] == CountGt(sizes, s, |sizes|)
  {
    CountGtZero(sizes, maxSize, |sizes|);
    var pos := 0;
    var size := maxSize;
    while size >= 0
      invariant -1 <= size <= maxSize
      invariant pos == CountGt(sizes, size, |sizes|)
      invariant forall s :: size < s <= maxSize ==> positions[s] == CountGt(sizes, s, |sizes|)
    {
      positions[size] := pos;
      pos := pos + counts[size];
      CountGtPrevious(sizes, size, |sizes|);
      size := size - 1;
    }
  }

  method PlaceBuckets(sizes: seq<nat>, maxSize: nat, result: array<nat>, positions: array<nat>)
    requires result != positions && maxSize < positions.Length
    requires |sizes| <= result.Length && |sizes| <= 0x1_0000
    requires forall i :: 0 <= i < |sizes| ==> sizes[i] <= maxSize
    requires forall s :: 0 <= s <= maxSize ==> positions[s] == CountGt(sizes, s, |sizes|)
    modifies result, positions
    ensures forall i :: 0 <= i < |sizes| ==> Rank(sizes, i) < |sizes| && result[Rank(sizes, i)] == i
  {
    for i := 0 to |sizes|
      invariant forall s :: 0 <= s <= maxSize ==> positions[s] == CountGt(sizes, s, |sizes|) + CountEq(sizes, s, i)
      invariant forall k :: 0 <= k < i ==> Rank(sizes, k) < |sizes| && result[Rank(sizes, k)] == k
    {
      RankBelow(sizes, i);
      forall k | 0 <= k < i ensures Rank(sizes, k) != Rank(sizes, i) { RanksDiffer(sizes, k, i); }
      result[positions[sizes[i]]] := i % 0x1_0000;
      positions[sizes[i]] := positions[sizes[i]] + 1;
    }
  }
}
