/** The max-heap of evicted buckets: larger size first, then lower index. */
module BucketHeap {
  import opened Basics

  datatype Item = Item(idx: nat, size: nat)

  function Zip(indices: seq<nat>, sizes: seq<nat>): (r: seq<Item>)
    requires |indices| == |sizes|
    ensures |r| == |indices| && forall k :: 0 <= k < |r| ==> r[k] == Item(indices[k], sizes[k])
  {
    seq(|indices|, k requires 0 <= k < |indices| => Item(indices[k], sizes[k]))
  }

  // The heap's total order.
  predicate Before(a: Item, b: Item) {
    a.size > b.size || (a.size == b.size && a.idx < b.idx)
  }

  // The parent of position j; Go's division truncates, so 0 is its own parent.
  function Parent(j: nat): nat {
    if j == 0 then 0 else (j - 1) / 2
  }

  ghost predicate HeapOrdered(h: seq<Item>) {
    forall k :: 0 < k < |h| ==> !Before(h[k], h[Parent(k)])
  }

  // Only position j may be ahead of its parent; its children are not ahead of that parent.
  ghost predicate OrderedButUp(h: seq<Item>, j: nat) {
    && (forall k :: 0 < k < |h| && k != j ==> !Before(h[k], h[Parent(k)]))
    && (j < |h| ==> forall k :: 0 < k < |h| && Parent(k) == j ==> !Before(h[k], h[Parent(j)]))
  }

  // In the first n positions only the children of i may be ahead of it; they are
  // not ahead of i's parent.
  ghost predicate OrderedButDown(h: seq<Item>, i: nat, n: nat)
    requires n <= |h|
  {
    && (forall k :: 0 < k < n && Parent(k) != i ==> !Before(h[k], h[Parent(k)]))
    && (i < n ==> forall k :: 0 < k < n && Parent(k) == i ==> i == 0 || !Before(h[k], h[Parent(i)]))
  }

  function Swapped(h: seq<Item>, i: nat, j: nat): seq<Item>
    requires i < |h| && j < |h|
  {
    h[i := h[j]][j := h[i]]
  }

  lemma SwappedBag(h: seq<Item>, i: nat, j: nat)
    requires i < |h| && j < |h|
    ensures multiset(Swapped(h, i, j)) == multiset(h)
  {
  }

  lemma UpStep(h: seq<Item>, j: nat)
    requires 0 < j < |h| && OrderedButUp(h, j) && Before(h[j], h[Parent(j)])
    ensures OrderedButUp(Swapped(h, Parent(j), j), Parent(j))
  {
    var i := Parent(j);
    var t := Swapped(h, i, j);
    forall k | 0 < k < |h| && k != i ensures !Before(t[k], t[Parent(k)]) {
      if k != j && Parent(k) != j && Parent(k) != i {
        assert t[k] == h[k] && t[Parent(k)] == h[Parent(k)];
      }
    }
    forall k | 0 < k < |h| && Parent(k) == i ensures !Before(t[k], t[Parent(i)]) {
      assert i > 0 ==> !Before(h[i], h[Parent(i)]);
      assert k != j ==> !Before(h[k], h[i]);
    }
  }

  lemma UpDone(h: seq<Item>, j: nat)
    requires j < |h| && OrderedButUp(h, j) && (j == 0 || !Before(h[j], h[Parent(j)]))
    ensures HeapOrdered(h)
  {
  }

  lemma DownStep(h: seq<Item>, i: nat, j: nat, n: nat)
    requires n <= |h| && i < j < n && Parent(j) == i && OrderedButDown(h, i, n) && Before(h[j], h[i])
    requires forall k :: 0 < k < n && Parent(k) == i ==> !Before(h[k], h[j])
    ensures OrderedButDown(Swapped(h, i, j), j, n)
  {
    var t := Swapped(h, i, j);
    forall k | 0 < k < n && Parent(k) != j ensures !Before(t[k], t[Parent(k)]) {
      if k == i {
        assert !Before(h[j], h[Parent(i)]);
      } else if Parent(k) != i {
        assert t[k] == h[k] && t[Parent(k)] == h[Parent(k)];
      }
    }
    forall k | 0 < k < n && Parent(k) == j ensures !Before(t[k], t[i]) {
      assert t[k] == h[k] && t[i] == h[j];
    }
  }

  // The child to compare with: the right one if it is ahead of the left one.
  lemma BetterChild(h: seq<Item>, i: nat, j: nat, n: nat)
    requires n <= |h| && 2 * i + 1 < n
    requires j == if 2 * i + 2 < n && Before(h[2 * i + 2], h[2 * i + 1]) then 2 * i + 2 else 2 * i + 1
    ensures Parent(j) == i && j < n
    ensures forall k :: 0 < k < n && Parent(k) == i ==> !Before(h[k], h[j])
  {
    assert forall k :: 0 < k < n && Parent(k) == i ==> k == 2 * i + 1 || k == 2 * i + 2;
  }

  lemma DownAtLeaf(h: seq<Item>, i: nat, n: nat)
    requires n <= |h| && i <= n && OrderedButDown(h, i, n) && 2 * i + 1 >= n
    ensures HeapOrdered(h[..n])
  {
    forall k | 0 < k < n ensures !Before(h[k], h[Parent(k)]) {
      assert Parent(k) != i;
    }
  }

  lemma DownInPlace(h: seq<Item>, i: nat, j: nat, n: nat)
    requires n <= |h| && i < j < n && OrderedButDown(h, i, n) && !Before(h[j], h[i])
    requires forall k :: 0 < k < n && Parent(k) == i ==> !Before(h[k], h[j])
    ensures HeapOrdered(h[..n])
  {
    forall k | 0 < k < n ensures !Before(h[k], h[Parent(k)]) {
      assert Parent(k) == i || Parent(k) != i;
    }
  }

  // The root of a heap is ahead of everything else.
  lemma {:induction false} RootFirst(h: seq<Item>, k: nat)
    requires HeapOrdered(h) && k < |h|
    ensures !Before(h[k], h[0])
  {
    if k > 0 {
      RootFirst(h, Parent(k));
    }
  }

  lemma RootFirstOfAll(h: seq<Item>)
    requires HeapOrdered(h) && |h| > 0
    ensures forall x :: x in h ==> !Before(x, h[0])
  {
    forall x | x in h ensures !Before(x, h[0]) {
      var k :| 0 <= k < |h| && h[k] == x;
      RootFirst(h, k);
    }
  }

  // Moving the last item to the root disturbs only the root.
  lemma RootReplaced(h: seq<Item>, n: nat)
    requires HeapOrdered(h) && |h| == n + 1
    ensures OrderedButDown(Swapped(h, 0, n), 0, n)
  {
  }

  // After the swap and the repair, dropping the last item drops the old root.
  lemma RootDropped(h: seq<Item>, t: seq<Item>, n: nat)
    requires |h| == n + 1 && |t| == n + 1
    requires t[n..] == Swapped(h, 0, n)[n..] && multiset(t) == multiset(h)
    ensures t[n] == h[0] && multiset(h) == multiset(t[..n]) + multiset{h[0]}
  {
    assert t[n] == t[n..][0];
    PrefixMultiset(t);
  }

  class Heap {
    var indices: seq<nat>
    var sizes: seq<nat>

    // What the heap holds.
    ghost var bag: multiset<Item>

    ghost predicate Aligned()
      reads `indices, `sizes
    {
      |indices| == |sizes|
    }

    // The heap as one sequence of items.
    ghost function Items(): (r: seq<Item>)
      reads `indices, `sizes
      requires Aligned()
      ensures |r| == |indices|
    {
      Zip(indices, sizes)
    }

    ghost predicate Valid()
      reads this
    {
      Aligned() && HeapOrdered(Items()) && bag == multiset(Items())
    }

    constructor ()
      ensures Valid() && bag == multiset{}
    {
      indices, sizes := [], [];
      bag := multiset{};
    }

    method Clear()
      modifies this
      ensures Valid() && bag == multiset{}
    {
      indices, sizes := [], [];
      bag := multiset{};
    }

    function Len(): nat
      reads this
      ensures Valid() ==> Len() == |bag|
    {
      |indices|
    }

    predicate Less(i: nat, j: nat)
      reads this
      requires Aligned() && i < |indices| && j < |indices|
      ensures Less(i, j) == Before(Items()[i], Items()[j])
    {
      if sizes[i] != sizes[j] then sizes[i] > sizes[j] else indices[i] < indices[j]
    }

    method Swap(i: nat, j: nat)
      requires Aligned() && i < |indices| && j < |indices|
      modifies `indices, `sizes
      ensures Aligned() && Items() == Swapped(old(Items()), i, j)
    {
      indices := indices[i := indices[j]][j := indices[i]];
      sizes := sizes[i := sizes[j]][j := sizes[i]];
    }

    method Up(start: nat)
      requires Aligned() && start < |indices| && OrderedButUp(Items(), start)
      modifies `indices, `sizes
      ensures Aligned() && HeapOrdered(Items()) && multiset(Items()) == multiset(old(Items()))
    {
      var j: nat := start;
      while true
        invariant Aligned() && |indices| == |old(Items())| && j < |indices|
        invariant OrderedButUp(Items(), j)
        invariant multiset(Items()) == multiset(old(Items()))
        decreases j
      {
        var i := Parent(j);
        if i == j || !Less(j, i) {
          break;
        }
        UpStep(Items(), j);
        SwappedBag(Items(), i, j);
        Swap(i, j);
        j := i;
      }
      UpDone(Items(), j);
    }

    // Restores order among the first n items; the rest stay where they are.
    method Down(start: nat, n: nat)
      requires Aligned() && n <= |indices| && start <= n && OrderedButDown(Items(), start, n)
      modifies `indices, `sizes
      ensures Aligned() && |Items()| == |old(Items())|
      ensures HeapOrdered(Items()[..n]) && Items()[n..] == old(Items())[n..]
      ensures multiset(Items()) == multiset(old(Items()))
    {
      var i: nat := start;
      hide OrderedButDown, HeapOrdered, Parent;
      while true
        invariant Aligned() && |indices| == |old(Items())| && i <= n
        invariant OrderedButDown(Items(), i, n)
        invariant Items()[n..] == old(Items())[n..]
        invariant multiset(Items()) == multiset(old(Items()))
        decreases n - i
      {
        var j1 := 2 * i + 1;
        if j1 >= n {
          DownAtLeaf(Items(), i, n);
          break;
        }
        var j := j1;
        if j1 + 1 < n && Less(j1 + 1, j1) {
          j := j1 + 1;
        }
        BetterChild(Items(), i, j, n);
        if !Less(j, i) {
          DownInPlace(Items(), i, j, n);
          break;
        }
        DownStep(Items(), i, j, n);
        SwappedBag(Items(), i, j);
        Swap(i, j);
        i := j;
      }
    }

    /** Both values are stored as uint16. */
    method Push(idx: nat, size: nat)
      requires Valid()
      modifies this
      ensures Valid()
      ensures bag == old(bag) + multiset{Item(idx % 0x1_0000, size % 0x1_0000)}
    {
      indices := indices + [idx % 0x1_0000];
      sizes := sizes + [size % 0x1_0000];
      bag := bag + multiset{Item(idx % 0x1_0000, size % 0x1_0000)};
      assert Items() == old(Items()) + [Item(idx % 0x1_0000, size % 0x1_0000)];
      Up(|indices| - 1);
    }

    /** Takes out the item that is ahead of all others. */
    method Pop() returns (idx: nat, size: nat)
      requires Valid() && bag != multiset{}
      modifies this
      ensures Valid()
      ensures old(bag) == bag + multiset{Item(idx, size)}
      ensures forall x :: x in old(bag) ==> !Before(x, Item(idx, size))
    {
      hide HeapOrdered, OrderedButDown, Before;
      var n := |indices| - 1;
      ghost var before := Items();
      RootFirstOfAll(before);
      RootReplaced(before, n);
      SwappedBag(before, 0, n);
      Swap(0, n);
      Down(0, n);
      ghost var after := Items();
      RootDropped(before, after, n);
      idx, size := indices[n], sizes[n];
      indices, sizes := indices[..n], sizes[..n];
      assert Items() == after[..n];
      bag := multiset(Items());
    }
  }
}
