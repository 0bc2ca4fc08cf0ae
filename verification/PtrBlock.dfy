/** A PTRHash block from its keys to its queries: bucket assignment, metadata
    bytes, and the decoder, with the theorem that the decoder is a minimal
    perfect hash of the block's keys. */
module PtrBlock {
  import opened Basics
  import opened LittleEndian
  import opened PtrSpec
  import opened PtrInvariant
  import opened PtrSolve
  import opened PtrOrder
  import opened PtrRemap

  const REMAP_HEADER := 2
  const REMAP_ENTRY := 2

  // What builder and decoder share: the slot hash, the bucket of a suffix, the
  // number of slots for a key count, and the number of buckets per block.
  datatype Geometry = Geometry(hash: SlotHash, bucketOf: bv64 -> nat, numSlotsOf: nat -> nat, numBuckets: nat) {
    ghost predicate Valid() {
      && (forall x, p, n :: n > 0 ==> hash(x, p, n) < n)
      && (forall x :: bucketOf(x) < numBuckets)
      && (forall n: nat :: n <= numSlotsOf(n))
    }
  }

  // ---------- Keys into buckets ----------

  // The entries of bucket `b`, in the order they were added.
  function Filter(g: Geometry, entries: seq<Entry>, b: nat): seq<Entry> {
    if |entries| == 0 then []
    else
      var last := entries[|entries| - 1];
      Filter(g, entries[..|entries| - 1], b) + if g.bucketOf(last.suffix) == b then [last] else []
  }

  function Buckets(g: Geometry, entries: seq<Entry>): (r: seq<seq<Entry>>)
    ensures |r| == g.numBuckets
  {
    seq(g.numBuckets, b requires 0 <= b < g.numBuckets => Filter(g, entries, b))
  }

  function BlockOf(g: Geometry, entries: seq<Entry>): Block {
    Block(g.hash, Buckets(g, entries), g.numSlotsOf(|entries|))
  }

  // Entry `i` sits in its bucket after the earlier entries of that bucket.
  lemma {:induction false} FilterAt(g: Geometry, entries: seq<Entry>, b: nat, i: nat)
    requires i < |entries| && g.bucketOf(entries[i].suffix) == b
    ensures |Filter(g, entries[..i], b)| < |Filter(g, entries, b)|
    ensures Filter(g, entries, b)[|Filter(g, entries[..i], b)|] == entries[i]
  {
    var n := |entries| - 1;
    if i < n {
      FilterAt(g, entries[..n], b, i);
      assert entries[..n][..i] == entries[..i];
    }
  }

  lemma {:induction false} FilterCount(g: Geometry, entries: seq<Entry>, b: nat, e: Entry)
    ensures multiset(Filter(g, entries, b))[e] == if g.bucketOf(e.suffix) == b then multiset(entries)[e] else 0
  {
    if |entries| > 0 {
      FilterCount(g, entries[..|entries| - 1], b, e);
      PrefixMultiset(entries);
    }
  }

  lemma FilterPerm(g: Geometry, s: seq<Entry>, t: seq<Entry>, b: nat)
    requires multiset(s) == multiset(t)
    ensures multiset(Filter(g, s, b)) == multiset(Filter(g, t, b))
  {
    forall e ensures multiset(Filter(g, s, b))[e] == multiset(Filter(g, t, b))[e] {
      FilterCount(g, s, b, e);
      FilterCount(g, t, b, e);
    }
  }

  lemma SameKeysFromPerm(g: Geometry, s: seq<Entry>, t: seq<Entry>)
    requires multiset(s) == multiset(t)
    ensures SameKeys(BlockOf(g, s), BlockOf(g, t))
  {
    PermLength(s, t);
    forall b | 0 <= b < g.numBuckets
      ensures multiset(InputsOf(Buckets(g, s)[b])) == multiset(InputsOf(Buckets(g, t)[b]))
    {
      FilterPerm(g, s, t, b);
      MapPerm((e: Entry) => e.Input(), Filter(g, s, b), Filter(g, t, b));
    }
  }

  // ---------- Counting keys ----------

  // Keys in the processed buckets below `n`.
  ghost function KeysProcessed(B: Block, pilots: map<nat, nat>, n: nat): nat
    requires n <= |B.buckets|
  {
    if n == 0 then 0
    else KeysProcessed(B, pilots, n - 1) + if n - 1 in pilots then B.Size(n - 1) else 0
  }

  ghost function OwnedBelow(owner: map<nat, nat>, n: nat): set<nat> {
    set s | s in owner && owner[s] < n
  }

  lemma ProcessedSlots(B: Block, st: State, b: nat)
    requires Inv(B, st) && b in st.pilots
    ensures b < |B.buckets| && |SlotSet(B, b, st.pilots[b])| == B.Size(b)
  {
    PilotFacts(B, st, b);
    hide Inv;
    NoDupSize(B.Slots(b, st.pilots[b]));
  }

  lemma OwnedStep(B: Block, st: State, n: nat)
    requires Inv(B, st) && n < |B.buckets|
    ensures |OwnedBelow(st.owner, n + 1)| ==
            |OwnedBelow(st.owner, n)| + if n in st.pilots then B.Size(n) else 0
  {
    hide Inv;
    var below := OwnedBelow(st.owner, n);
    var own := set s | s in st.owner && st.owner[s] == n;
    assert OwnedBelow(st.owner, n + 1) == below + own && below !! own;
    if n in st.pilots {
      ProcessedSlots(B, st, n);
      var claim := SlotSet(B, n, st.pilots[n]);
      forall s ensures s in own <==> s in claim {
        if s in own { OwnerClaims(B, st, s); }
        if s in claim { SlotOwned(B, st, n, s); }
      }
      assert own == claim;
    } else {
      forall s ensures s !in own {
        if s in own { OwnerClaims(B, st, s); }
      }
      assert own == {};
    }
  }

  lemma {:induction false} OwnedCount(B: Block, st: State, n: nat)
    requires Inv(B, st) && n <= |B.buckets|
    ensures |OwnedBelow(st.owner, n)| == KeysProcessed(B, st.pilots, n)
  {
    if n == 0 {
      assert OwnedBelow(st.owner, 0) == {};
    } else {
      OwnedCount(B, st, n - 1);
      OwnedStep(B, st, n - 1);
      hide Inv, OwnedBelow;
    }
  }

  /** In every reachable state the number of taken slots is the number of keys in
      processed buckets. */
  lemma TakenCount(B: Block, st: State)
    requires Inv(B, st)
    ensures |st.owner.Keys| == KeysProcessed(B, st.pilots, |B.buckets|)
  {
    hide Inv;
    OwnedCount(B, st, |B.buckets|);
    forall s | s in st.owner ensures st.owner[s] < |B.buckets| { OwnerClaims(B, st, s); }
    assert OwnedBelow(st.owner, |B.buckets|) == st.owner.Keys;
  }

  ghost function SumSizes(buckets: seq<seq<Entry>>, n: nat): nat
    requires n <= |buckets|
  {
    if n == 0 then 0 else SumSizes(buckets, n - 1) + |buckets[n - 1]|
  }

  lemma {:induction false} SumSizesStep(g: Geometry, s: seq<Entry>, e: Entry, n: nat)
    requires n <= g.numBuckets
    ensures SumSizes(Buckets(g, s + [e]), n) ==
            SumSizes(Buckets(g, s), n) + if g.bucketOf(e.suffix) < n then 1 else 0
  {
    if n > 0 {
      SumSizesStep(g, s, e, n - 1);
      assert (s + [e])[..|s|] == s;
    }
  }

  lemma {:induction false} SumSizesTotal(g: Geometry, s: seq<Entry>)
    requires g.Valid()
    ensures SumSizes(Buckets(g, s), g.numBuckets) == |s|
  {
    if |s| == 0 {
      SumSizesEmpty(g, g.numBuckets);
    } else {
      var n := |s| - 1;
      SumSizesTotal(g, s[..n]);
      SumSizesStep(g, s[..n], s[n], g.numBuckets);
      assert s[..n] + [s[n]] == s;
    }
  }

  lemma SumSizesEmpty(g: Geometry, n: nat)
    requires n <= g.numBuckets
    ensures SumSizes(Buckets(g, []), n) == 0
  {
  }

  lemma {:induction false} AllProcessed(B: Block, pilots: map<nat, nat>, n: nat)
    requires n <= |B.buckets| && forall b :: 0 <= b < n ==> b in pilots
    ensures KeysProcessed(B, pilots, n) == SumSizes(B.buckets, n)
  {
    if n > 0 {
      AllProcessed(B, pilots, n - 1);
    }
  }

  /** Once every bucket is processed, as many slots are taken as there are keys,
      all of them below numSlots. */
  lemma AllTaken(B: Block, st: State)
    requires Inv(B, st) && B.InRange() && st.pilots.Keys == Range(|B.buckets|)
    ensures |st.owner.Keys| == SumSizes(B.buckets, |B.buckets|)
    ensures forall s :: s in st.owner.Keys ==> s < B.numSlots
  {
    TakenCount(B, st);
    AllProcessed(B, st.pilots, |B.buckets|);
    forall s | s in st.owner ensures s < B.numSlots {
      OwnerClaims(B, st, s);
    }
    hide Inv;
  }
}
