/** The seed searches of the bijection builder, proved to find the least seeds. */
module BijSolver {
  import opened Basics
  import opened Words
  import opened SeedStream
  import opened BijSpec

  // What a bounded search reports.
  ghost predicate Finds(wanted: Option<nat>, seed: nat, needsFallback: bool) {
    wanted == if needsFallback then None else Some(seed)
  }

  lemma SeedStep(mix: MixHash, bucket: seq<Entry>, seed: nat, max: nat)
    ensures seed >= max ==> LeastSeed(mix, bucket, seed, max) == None
    ensures seed < max && Separates(mix, bucket, seed) ==> LeastSeed(mix, bucket, seed, max) == Some(seed)
    ensures seed < max && !Separates(mix, bucket, seed) ==>
              LeastSeed(mix, bucket, seed, max) == LeastSeed(mix, bucket, seed + 1, max)
  {
    hide Separates;
  }

  lemma SplitStep(mix: MixHash, bucket: seq<Entry>, seed: nat, max: nat)
    ensures seed >= max ==> LeastSplit(mix, bucket, seed, max) == None
    ensures seed < max && Splits(mix, bucket, seed) ==> LeastSplit(mix, bucket, seed, max) == Some(seed)
    ensures seed < max && !Splits(mix, bucket, seed) ==>
              LeastSplit(mix, bucket, seed, max) == LeastSplit(mix, bucket, seed + 1, max)
  {
    hide Splits;
  }

  lemma SlotAt(mix: MixHash, bucket: seq<Entry>, seed: nat, size: nat, i: nat)
    requires i < |bucket|
    ensures SlotsUnder(mix, bucket, seed, size)[i] == mix(bucket[i].parts, seed, size)
    ensures InRange(mix) && size > 0 ==> SlotsUnder(mix, bucket, seed, size)[i] < size
  {
  }

  lemma NoSeed(mix: MixHash, bucket: seq<Entry>, max: nat)
    requires HasDuplicate(bucket)
    ensures LeastSeed(mix, bucket, 0, max) == None
  {
    var r := LeastSeed(mix, bucket, 0, max);
    if r.Some? {
      DuplicatesCollide(mix, bucket, r.value);
    }
  }

  // ---------- Unrolled searches ----------

  lemma PairDuplicate(bucket: seq<Entry>, i: nat, j: nat)
    requires i < j < |bucket| && bucket[i].parts == bucket[j].parts
    ensures HasDuplicate(bucket)
  {
    assert PartsOf(bucket)[i] == PartsOf(bucket)[j];
  }

  // Two keys: one comparison.
  method SolveBucket2(mix: MixHash, bucket: seq<Entry>, maxSeed: nat) returns (seed: nat, needsFallback: bool)
    requires |bucket| == 2
    ensures Finds(LeastSeed(mix, bucket, 0, maxSeed), seed, needsFallback)
  {
    var p0, p1 := bucket[0].parts, bucket[1].parts;
    if p0 == p1 {
      PairDuplicate(bucket, 0, 1);
      NoSeed(mix, bucket, maxSeed);
      return 0, true;
    }
    hide LeastSeed;
    seed := 0;
    while seed < maxSeed
      invariant 0 <= seed
      invariant LeastSeed(mix, bucket, seed, maxSeed) == LeastSeed(mix, bucket, 0, maxSeed)
      decreases maxSeed - seed
    {
      SeedStep(mix, bucket, seed, maxSeed);
      var s0, s1 := mix(p0, seed, 2), mix(p1, seed, 2);
      assert SlotsUnder(mix, bucket, seed, 2) == [s0, s1];
      if s0 != s1 {
        return seed, false;
      }
      assert [s0, s1][0] == [s0, s1][1];
      seed := seed + 1;
    }
    SeedStep(mix, bucket, seed, maxSeed);
    return 0, true;
  }

  // Three keys: the third slot is computed only if the first two differ.
  method TrySeed3(mix: MixHash, bucket: seq<Entry>, seed: nat) returns (ok: bool)
    requires |bucket| == 3
    ensures ok == Separates(mix, bucket, seed)
  {
    var s0, s1 := mix(bucket[0].parts, seed, 3), mix(bucket[1].parts, seed, 3);
    ghost var slots := SlotsUnder(mix, bucket, seed, 3);
    assert slots[0] == s0 && slots[1] == s1;
    if s0 == s1 {
      return false;
    }
    var s2 := mix(bucket[2].parts, seed, 3);
    assert slots[2] == s2;
    return s2 != s0 && s2 != s1;
  }

  method SolveBucket3(mix: MixHash, bucket: seq<Entry>, maxSeed: nat) returns (seed: nat, needsFallback: bool)
    requires |bucket| == 3
    ensures Finds(LeastSeed(mix, bucket, 0, maxSeed), seed, needsFallback)
  {
    var p0, p1, p2 := bucket[0].parts, bucket[1].parts, bucket[2].parts;
    if p0 == p1 || p0 == p2 || p1 == p2 {
      if p0 == p1 {
        PairDuplicate(bucket, 0, 1);
      } else if p0 == p2 {
        PairDuplicate(bucket, 0, 2);
      } else {
        PairDuplicate(bucket, 1, 2);
      }
      NoSeed(mix, bucket, maxSeed);
      return 0, true;
    }
    hide LeastSeed, Separates;
    seed := 0;
    while seed < maxSeed
      invariant 0 <= seed
      invariant LeastSeed(mix, bucket, seed, maxSeed) == LeastSeed(mix, bucket, 0, maxSeed)
      decreases maxSeed - seed
    {
      SeedStep(mix, bucket, seed, maxSeed);
      var ok := TrySeed3(mix, bucket, seed);
      if ok {
        return seed, false;
      }
      seed := seed + 1;
    }
    SeedStep(mix, bucket, seed, maxSeed);
    return 0, true;
  }

  // ---------- Any size ----------

  // One seed, with the occupied slots as bits of a word.
  method TrySeedBitmask(mix: MixHash, bucket: seq<Entry>, seed: nat) returns (ok: bool)
    requires InRange(mix) && 0 < |bucket| <= 64
    ensures ok == Separates(mix, bucket, seed)
  {
    var occupied := ZERO;
    ghost var slots := SlotsUnder(mix, bucket, seed, |bucket|);
    for i := 0 to |bucket|
      invariant forall k :: 0 <= k < 64 ==> (occupied[k] <==> k in slots[..i])
      invariant NoDup(slots[..i])
    {
      SlotAt(mix, bucket, seed, |bucket|, i);
      var slot := mix(bucket[i].parts, seed, |bucket|);
      BitTest(occupied, slot);
      assert slots[..i + 1] == slots[..i] + [slots[i]];
      if And(occupied, Bit(slot)) != ZERO {
        ghost var k :| 0 <= k < i && slots[k] == slot;
        return false;
      }
      occupied := Or(occupied, Bit(slot));
    }
    assert slots[..|bucket|] == slots;
    return true;
  }

  lemma BitTest(w: Word, k: nat)
    requires k < 64
    ensures And(w, Bit(k)) != ZERO <==> w[k]
  {
    assert And(w, Bit(k))[k] == w[k];
    if !w[k] {
      assert And(w, Bit(k)) == ZERO;
    }
  }

  // One seed, with a slot array that is cleared first.
  method TrySeedArray(mix: MixHash, bucket: seq<Entry>, seed: nat, slots: array<bool>) returns (ok: bool)
    requires InRange(mix) && 0 < |bucket| <= slots.Length
    modifies slots
    ensures ok == Separates(mix, bucket, seed)
  {
    var size := |bucket|;
    for k := 0 to size
      invariant forall j :: 0 <= j < k ==> !slots[j]
    {
      slots[k] := false;
    }
    ghost var under := SlotsUnder(mix, bucket, seed, size);
    for i := 0 to size
      invariant forall k :: 0 <= k < size ==> (slots[k] <==> k in under[..i])
      invariant NoDup(under[..i])
    {
      SlotAt(mix, bucket, seed, size, i);
      var slot := mix(bucket[i].parts, seed, size);
      assert under[..i + 1] == under[..i] + [under[i]];
      if slots[slot] {
        ghost var k :| 0 <= k < i && under[k] == slot;
        return false;
      }
      slots[slot] := true;
    }
    assert under[..size] == under;
    return true;
  }

  // The least seed below `max`, trying one after the other.
  method Search(mix: MixHash, bucket: seq<Entry>, max: nat, slots: array<bool>) returns (seed: nat, needsFallback: bool)
    requires InRange(mix) && 0 < |bucket| <= slots.Length
    modifies slots
    ensures Finds(LeastSeed(mix, bucket, 0, max), seed, needsFallback)
  {
    hide LeastSeed, Separates, InRange;
    seed := 0;
    while seed < max
      invariant 0 <= seed
      invariant LeastSeed(mix, bucket, seed, max) == LeastSeed(mix, bucket, 0, max)
      decreases max - seed
    {
      SeedStep(mix, bucket, seed, max);
      var ok;
      if |bucket| <= 64 {
        ok := TrySeedBitmask(mix, bucket, seed);
      } else {
        ok := TrySeedArray(mix, bucket, seed, slots);
      }
      if ok {
        return seed, false;
      }
      seed := seed + 1;
    }
    SeedStep(mix, bucket, seed, max);
    return 0, true;
  }

  // Seeds that have a code.
  method SolveDirectBucket(mix: MixHash, bucket: seq<Entry>, slots: array<bool>) returns (seed: nat, needsFallback: bool)
    requires InRange(mix) && 2 <= |bucket| <= slots.Length
    modifies slots
    ensures Finds(LeastSeed(mix, bucket, 0, MaxEncodableSeed(|bucket|)), seed, needsFallback)
  {
    hide LeastSeed, InRange, MaxEncodableSeed;
    var maxSeed := MaxEncodableSeed(|bucket|);
    if |bucket| == 2 {
      seed, needsFallback := SolveBucket2(mix, bucket, maxSeed);
    } else if |bucket| == 3 {
      seed, needsFallback := SolveBucket3(mix, bucket, maxSeed);
    } else {
      seed, needsFallback := Search(mix, bucket, maxSeed, slots);
    }
  }

  method HasDuplicateMixParts(bucket: seq<Entry>) returns (dup: bool)
    ensures dup == HasDuplicate(bucket)
  {
    var parts := PartsOf(bucket);
    for i := 0 to |bucket|
      invariant forall k, j :: 0 <= k < i && k < j < |bucket| ==> parts[k] != parts[j]
    {
      for j := i + 1 to |bucket|
        invariant forall k :: i < k < j ==> parts[i] != parts[k]
      {
        if bucket[i].parts == bucket[j].parts {
          assert parts[i] == parts[j];
          return true;
        }
      }
    }
    return false;
  }

  // The extended range, once duplicates are ruled out.
  method SolveExtended(mix: MixHash, bucket: seq<Entry>, slots: array<bool>) returns (r: Result<nat, Error>)
    requires InRange(mix) && 2 <= |bucket| <= slots.Length
    modifies slots
    ensures r == PartSeed(mix, bucket)
  {
    var dup := HasDuplicateMixParts(bucket);
    hide LeastSeed, InRange, HasDuplicate;
    if dup {
      return Err(DuplicateKey);
    }
    var seed, none := Search(mix, bucket, MAX_EXTENDED_SEED, slots);
    return if none then Err(IndistinguishableHashes) else Ok(seed);
  }

  // A direct search that succeeds finds what the extended search would.
  lemma {:induction false} LeastSeedExtends(mix: MixHash, bucket: seq<Entry>, from: nat, max: nat, more: nat)
    requires max <= more && LeastSeed(mix, bucket, from, max).Some?
    ensures LeastSeed(mix, bucket, from, more) == LeastSeed(mix, bucket, from, max)
    decreases max - from
  {
    hide Separates;
    SeedStep(mix, bucket, from, max);
    SeedStep(mix, bucket, from, more);
    if from < max && !Separates(mix, bucket, from) {
      LeastSeedExtends(mix, bucket, from + 1, max, more);
    }
  }

  lemma MaxEncodableBound(size: nat)
    ensures MaxEncodableSeed(size) <= MAX_EXTENDED_SEED
  {
    assert Pow2(1) == 2 && Pow2(2) == 4 && Pow2(3) == 8 && Pow2(4) == 16 && Pow2(5) == 32;
    assert Pow2(6) == 64 && Pow2(7) == 128 && Pow2(8) == 256;
  }

  // A direct hit is the part's seed and has a code; a miss means it has none.
  lemma DirectIsPartSeed(mix: MixHash, bucket: seq<Entry>, seed: nat, needsFallback: bool)
    requires 2 <= |bucket| <= 8
    requires Finds(LeastSeed(mix, bucket, 0, MaxEncodableSeed(|bucket|)), seed, needsFallback)
    ensures !needsFallback ==> PartSeed(mix, bucket) == Ok(seed) && StoredSeed(seed, |bucket|) == seed < MAX_EXTENDED_SEED
    ensures needsFallback ==>
              PartSeed(mix, bucket).Ok? ==> StoredSeed(PartSeed(mix, bucket).value, |bucket|) == FALLBACK_MARKER
  {
    hide *;
    var max := MaxEncodableSeed(|bucket|);
    MaxEncodableBound(|bucket|);
    PartSeedIs(mix, bucket);
    FindsIs(LeastSeed(mix, bucket, 0, max), seed, needsFallback);
    if needsFallback {
      if PartSeed(mix, bucket).Ok? {
        StoredIs(PartSeed(mix, bucket).value, |bucket|);
      }
    } else {
      StoredIs(seed, |bucket|);
      LeastSeedExtends(mix, bucket, 0, max, MAX_EXTENDED_SEED);
      if HasDuplicate(bucket) {
        DuplicatesCollide(mix, bucket, seed);
      }
    }
  }

  lemma PartSeedIs(mix: MixHash, part: seq<Entry>)
    ensures var r := LeastSeed(mix, part, 0, MAX_EXTENDED_SEED);
            PartSeed(mix, part) ==
            if HasDuplicate(part) then Err(DuplicateKey)
            else if r.Some? then Ok(r.value) else Err(IndistinguishableHashes)
  {
    hide LeastSeed, HasDuplicate;
  }

  lemma FindsIs(wanted: Option<nat>, seed: nat, needsFallback: bool)
    ensures Finds(wanted, seed, needsFallback) <==> wanted == if needsFallback then None else Some(seed)
  {
  }

  lemma StoredIs(seed: nat, partSize: nat)
    ensures partSize <= 8 && seed < MaxEncodableSeed(partSize) ==> StoredSeed(seed, partSize) == seed
    ensures !(partSize <= 8 && seed < MaxEncodableSeed(partSize)) ==> StoredSeed(seed, partSize) == FALLBACK_MARKER
  {
    hide MaxEncodableSeed;
  }

  // ---------- Splitting ----------

  lemma {:induction false} HalfPrefix(mix: MixHash, bucket: seq<Entry>, seed: nat, size: nat, split: nat, i: nat)
    requires i <= |bucket|
    ensures |FirstHalf(mix, bucket[..i], seed, size, split)| <= |FirstHalf(mix, bucket, seed, size, split)|
    ensures FirstHalf(mix, bucket, seed, size, split)[..|FirstHalf(mix, bucket[..i], seed, size, split)|]
         == FirstHalf(mix, bucket[..i], seed, size, split)
    decreases |bucket|
  {
    if i == |bucket| {
      assert bucket[..i] == bucket;
    } else {
      HalfPrefix(mix, bucket[..|bucket| - 1], seed, size, split, i);
      assert bucket[..|bucket| - 1][..i] == bucket[..i];
    }
  }

  lemma HalfStep(mix: MixHash, bucket: seq<Entry>, seed: nat, size: nat, split: nat, i: nat)
    requires i < |bucket|
    ensures mix(bucket[i].parts, seed, size) < split ==>
              && FirstHalf(mix, bucket[..i + 1], seed, size, split) == FirstHalf(mix, bucket[..i], seed, size, split) + [bucket[i]]
              && SecondHalf(mix, bucket[..i + 1], seed, size, split) == SecondHalf(mix, bucket[..i], seed, size, split)
    ensures mix(bucket[i].parts, seed, size) >= split ==>
              && FirstHalf(mix, bucket[..i + 1], seed, size, split) == FirstHalf(mix, bucket[..i], seed, size, split)
              && SecondHalf(mix, bucket[..i + 1], seed, size, split) == SecondHalf(mix, bucket[..i], seed, size, split) + [bucket[i]]
  {
    assert bucket[..i + 1][..i] == bucket[..i];
  }

  // A collision among the first keys rules the seed out.
  lemma CollisionStops(mix: MixHash, bucket: seq<Entry>, seed: nat, i: nat, first: seq<Entry>)
    requires i < |bucket| && first == FirstHalf(mix, bucket[..i + 1], seed, |bucket|, |bucket| / 2)
    requires !NoDup(SlotsUnder(mix, first, seed, |bucket|))
    ensures !Splits(mix, bucket, seed)
  {
    var size, split := |bucket|, |bucket| / 2;
    HalfPrefix(mix, bucket, seed, size, split, i + 1);
    var all := FirstHalf(mix, bucket, seed, size, split);
    var slots := SlotsUnder(mix, first, seed, size);
    hide FirstHalf;
    var a, b :| 0 <= a < b < |slots| && slots[a] == slots[b];
    assert first[a] == all[a] && first[b] == all[b];
    assert SlotsUnder(mix, all, seed, size)[a] == SlotsUnder(mix, all, seed, size)[b];
  }

  // The keys sorted so far and their marks.
  ghost predicate Sorting(mix: MixHash, bucket: seq<Entry>, seed: nat, i: nat, sub0: seq<Entry>, sub1: seq<Entry>, marks: seq<bool>) {
    && i <= |bucket| && |marks| == |bucket| / 2
    && sub0 == FirstHalf(mix, bucket[..i], seed, |bucket|, |bucket| / 2)
    && sub1 == SecondHalf(mix, bucket[..i], seed, |bucket|, |bucket| / 2)
    && NoDup(SlotsUnder(mix, sub0, seed, |bucket|))
    && forall k :: 0 <= k < |marks| ==> (marks[k] <==> k in SlotsUnder(mix, sub0, seed, |bucket|))
  }

  lemma SortingBegins(mix: MixHash, bucket: seq<Entry>, seed: nat, marks: seq<bool>)
    requires |marks| == |bucket| / 2 && forall k :: 0 <= k < |marks| ==> !marks[k]
    ensures Sorting(mix, bucket, seed, 0, [], [], marks)
  {
    assert bucket[..0] == [];
  }

  lemma SortingSteps(mix: MixHash, bucket: seq<Entry>, seed: nat, i: nat, sub0: seq<Entry>, sub1: seq<Entry>, marks: seq<bool>)
    requires i < |bucket| && Sorting(mix, bucket, seed, i, sub0, sub1, marks)
    ensures var h := mix(bucket[i].parts, seed, |bucket|);
            && |marks| == |bucket| / 2
            && (h < |marks| && marks[h] ==> !Splits(mix, bucket, seed))
            && (h < |marks| && !marks[h] ==> Sorting(mix, bucket, seed, i + 1, sub0 + [bucket[i]], sub1, marks[h := true]))
            && (h >= |marks| ==> Sorting(mix, bucket, seed, i + 1, sub0, sub1 + [bucket[i]], marks))
  {
    var h := mix(bucket[i].parts, seed, |bucket|);
    HalfStep(mix, bucket, seed, |bucket|, |bucket| / 2, i);
    hide FirstHalf, SecondHalf, Splits;
    if h < |marks| {
      var slots, next := SlotsUnder(mix, sub0, seed, |bucket|), SlotsUnder(mix, sub0 + [bucket[i]], seed, |bucket|);
      assert next == slots + [h];
      if marks[h] {
        var k :| 0 <= k < |slots| && slots[k] == h;
        assert next[k] == next[|slots|];
        CollisionStops(mix, bucket, seed, i, sub0 + [bucket[i]]);
      }
    }
  }

  lemma SortingEnds(mix: MixHash, bucket: seq<Entry>, seed: nat, sub0: seq<Entry>, sub1: seq<Entry>, marks: seq<bool>)
    requires Sorting(mix, bucket, seed, |bucket|, sub0, sub1, marks)
    ensures Splits(mix, bucket, seed) <==> |sub0| == |bucket| / 2
    ensures sub1 == SecondHalf(mix, bucket, seed, |bucket|, |bucket| / 2)
  {
    assert bucket[..|bucket|] == bucket;
    hide FirstHalf, SecondHalf;
  }

  // One splitting seed: the first half must fill its slots exactly.
  method TrySplit(mix: MixHash, bucket: seq<Entry>, seed: nat, slots: array<bool>) returns (ok: bool, sub1: seq<Entry>)
    requires |bucket| <= slots.Length
    modifies slots
    ensures ok == Splits(mix, bucket, seed)
    ensures ok ==> sub1 == SecondHalf(mix, bucket, seed, |bucket|, |bucket| / 2)
  {
    var splitPoint := |bucket| / 2;
    for k := 0 to splitPoint
      invariant forall j :: 0 <= j < k ==> !slots[j]
    {
      slots[k] := false;
    }
    var sub0: seq<Entry> := [];
    sub1 := [];
    SortingBegins(mix, bucket, seed, slots[..splitPoint]);
    hide Sorting, Splits, FirstHalf, SecondHalf;
    for i := 0 to |bucket|
      invariant Sorting(mix, bucket, seed, i, sub0, sub1, slots[..splitPoint])
    {
      var h := mix(bucket[i].parts, seed, |bucket|);
      SortingSteps(mix, bucket, seed, i, sub0, sub1, slots[..splitPoint]);
      if h < splitPoint {
        if slots[h] {
          return false, [];
        }
        ghost var marks := slots[..splitPoint];
        slots[h] := true;
        assert slots[..splitPoint] == marks[h := true];
        sub0 := sub0 + [bucket[i]];
      } else {
        sub1 := sub1 + [bucket[i]];
      }
    }
    SortingEnds(mix, bucket, seed, sub0, sub1, slots[..splitPoint]);
    ok := |sub0| == splitPoint;
  }

  // The least splitting seed and the second half it leaves.
  method FindSplit(mix: MixHash, bucket: seq<Entry>, slots: array<bool>) returns (found: bool, seed: nat, sub1: seq<Entry>)
    requires |bucket| <= slots.Length
    modifies slots
    ensures LeastSplit(mix, bucket, 0, SPLIT_BUCKET_MAX_SEED) == if found then Some(seed) else None
    ensures found ==> seed < SPLIT_BUCKET_MAX_SEED && sub1 == SecondHalf(mix, bucket, seed, |bucket|, |bucket| / 2)
  {
    hide LeastSplit, Splits, SecondHalf;
    seed := 0;
    while seed < SPLIT_BUCKET_MAX_SEED
      invariant 0 <= seed
      invariant LeastSplit(mix, bucket, seed, SPLIT_BUCKET_MAX_SEED) == LeastSplit(mix, bucket, 0, SPLIT_BUCKET_MAX_SEED)
      decreases SPLIT_BUCKET_MAX_SEED - seed
    {
      SplitStep(mix, bucket, seed, SPLIT_BUCKET_MAX_SEED);
      found, sub1 := TrySplit(mix, bucket, seed, slots);
      if found {
        return;
      }
      seed := seed + 1;
    }
    SplitStep(mix, bucket, seed, SPLIT_BUCKET_MAX_SEED);
    return false, 0, [];
  }
}
