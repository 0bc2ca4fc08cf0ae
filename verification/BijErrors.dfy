/** What the bijection solver's outcomes say: which seeds it settles on, and when each of its
    errors arises. */
module BijErrors {
  import opened Basics
  import opened BijSpec
  import opened SeedStream

  // Two entries are of one key.
  ghost predicate Twins(bucket: seq<Entry>) {
    exists i, j :: 0 <= i < j < |bucket| && bucket[i].parts == bucket[j].parts
  }

  lemma TwinsAre(bucket: seq<Entry>)
    ensures Twins(bucket) <==> HasDuplicate(bucket)
  {
    var parts := PartsOf(bucket);
    assert forall i :: 0 <= i < |parts| ==> parts[i] == bucket[i].parts;
    if Twins(bucket) {
      var i, j :| 0 <= i < j < |bucket| && bucket[i].parts == bucket[j].parts;
      assert parts[i] == parts[j];
    }
  }

  // Seed s is the least below `max` that separates the keys, or splits them.
  ghost predicate FirstToSeparate(mix: MixHash, bucket: seq<Entry>, s: nat, max: nat) {
    s < max && Separates(mix, bucket, s) && forall t: nat :: t < s ==> !Separates(mix, bucket, t)
  }

  ghost predicate FirstToSplit(mix: MixHash, bucket: seq<Entry>, s: nat, max: nat) {
    s < max && Splits(mix, bucket, s) && forall t: nat :: t < s ==> !Splits(mix, bucket, t)
  }

  ghost predicate NoneSeparates(mix: MixHash, bucket: seq<Entry>) {
    forall t: nat :: t < 2097152 ==> !Separates(mix, bucket, t)
  }

  ghost predicate NoneSplits(mix: MixHash, bucket: seq<Entry>) {
    forall t: nat :: t < 1048576 ==> !Splits(mix, bucket, t)
  }

  // The keys the splitting seed leaves to the second seed.
  function Rest(mix: MixHash, bucket: seq<Entry>, seed: nat): seq<Entry> {
    SecondHalf(mix, bucket, seed, |bucket|, |bucket| / 2)
  }

  lemma PartOutcome(mix: MixHash, part: seq<Entry>)
    ensures match PartSeed(mix, part)
            case Ok(s) => !Twins(part) && FirstToSeparate(mix, part, s, 2097152)
            case Err(e) =>
              if Twins(part) then e == DuplicateKey
              else e == Error.IndistinguishableHashes && NoneSeparates(mix, part)
  {
    TwinsAre(part);
    hide Separates, HasDuplicate, Twins;
  }

  lemma SplitOutcome(mix: MixHash, bucket: seq<Entry>)
    ensures match LeastSplit(mix, bucket, 0, SPLIT_BUCKET_MAX_SEED)
            case Some(s) => FirstToSplit(mix, bucket, s, 1048576)
            case None => NoneSplits(mix, bucket)
  {
    hide Splits;
  }

  lemma OneFirst(mix: MixHash, bucket: seq<Entry>, s: nat, t: nat)
    requires FirstToSplit(mix, bucket, s, 1048576) && FirstToSplit(mix, bucket, t, 1048576)
    ensures s == t
  {
    hide Splits;
  }

  // The outcome of a bucket of eight keys or more.
  ghost predicate SplitSolved(mix: MixHash, bucket: seq<Entry>, r: Result<seq<nat>, Error>) {
    match r
    case Ok(seeds) =>
      && |seeds| == 2 && FirstToSplit(mix, bucket, seeds[0], 1048576)
      && FirstToSeparate(mix, Rest(mix, bucket, seeds[0]), seeds[1], 2097152)
    case Err(SplitBucketSeedSearchFailed) => NoneSplits(mix, bucket)
    case Err(IndistinguishableHashes) =>
      exists s: nat :: FirstToSplit(mix, bucket, s, 1048576) && NoneSeparates(mix, Rest(mix, bucket, s))
    case Err(e) => false
  }

  lemma FailedSecond(mix: MixHash, bucket: seq<Entry>, s: nat)
    requires FirstToSplit(mix, bucket, s, 1048576) && NoneSeparates(mix, Rest(mix, bucket, s))
    ensures SplitSolved(mix, bucket, Err(Error.IndistinguishableHashes))
  {
    hide FirstToSplit, NoneSeparates, Rest;
  }

  lemma LargeOutcome(mix: MixHash, bucket: seq<Entry>)
    requires |bucket| >= 8 && !Twins(bucket)
    ensures SplitSolved(mix, bucket, BucketSeeds(mix, bucket))
  {
    var split := LeastSplit(mix, bucket, 0, SPLIT_BUCKET_MAX_SEED);
    SplitOutcome(mix, bucket);
    TwinsAre(bucket);
    if split.Some? {
      var rest := Rest(mix, bucket, split.value);
      PartOutcome(mix, rest);
      RestDistinct(mix, bucket, split.value);
      hide Twins, HasDuplicate, PartSeed, LeastSplit, FirstToSplit, FirstToSeparate, NoneSeparates, SecondHalf, SplitSolved;
      if PartSeed(mix, rest).Err? {
        FailedSecond(mix, bucket, split.value);
      } else {
        SolvedTwice(mix, bucket, split.value, PartSeed(mix, rest).value);
      }
    } else {
      hide Twins, HasDuplicate, PartSeed, LeastSplit, NoneSplits, SecondHalf;
    }
  }

  lemma SolvedTwice(mix: MixHash, bucket: seq<Entry>, s: nat, t: nat)
    requires FirstToSplit(mix, bucket, s, 1048576) && FirstToSeparate(mix, Rest(mix, bucket, s), t, 2097152)
    ensures SplitSolved(mix, bucket, Ok([s, t]))
  {
    hide FirstToSplit, FirstToSeparate, Rest;
  }

  lemma {:induction false} RestMembers(mix: MixHash, bucket: seq<Entry>, seed: nat, size: nat, split: nat, p: nat, q: nat) returns (i: nat, j: nat)
    requires p < q < |SecondHalf(mix, bucket, seed, size, split)|
    ensures i < j < |bucket|
    ensures SecondHalf(mix, bucket, seed, size, split)[p] == bucket[i] && SecondHalf(mix, bucket, seed, size, split)[q] == bucket[j]
  {
    var n := |bucket| - 1;
    var front := SecondHalf(mix, bucket[..n], seed, size, split);
    if q < |front| {
      i, j := RestMembers(mix, bucket[..n], seed, size, split, p, q);
    } else {
      i := RestMember(mix, bucket[..n], seed, size, split, p);
      j := n;
    }
  }

  lemma {:induction false} RestMember(mix: MixHash, bucket: seq<Entry>, seed: nat, size: nat, split: nat, p: nat) returns (i: nat)
    requires p < |SecondHalf(mix, bucket, seed, size, split)|
    ensures i < |bucket| && SecondHalf(mix, bucket, seed, size, split)[p] == bucket[i]
  {
    var n := |bucket| - 1;
    if p < |SecondHalf(mix, bucket[..n], seed, size, split)| {
      i := RestMember(mix, bucket[..n], seed, size, split, p);
    } else {
      i := n;
    }
  }

  lemma RestDistinct(mix: MixHash, bucket: seq<Entry>, seed: nat)
    requires !Twins(bucket)
    ensures !Twins(Rest(mix, bucket, seed))
  {
    var rest := Rest(mix, bucket, seed);
    if Twins(rest) {
      var p: nat, q: nat :| p < q < |rest| && rest[p].parts == rest[q].parts;
      var i, j := RestMembers(mix, bucket, seed, |bucket|, |bucket| / 2, p, q);
      hide SecondHalf;
    }
  }

  /** The outcome for every bucket. A key alone needs no seed. Duplicates are reported as such, and
      nothing else is. Below eight keys, the seed is the least of 2^21 that separates them, or the
      keys are indistinguishable. From eight keys on, the first seed is the least of 2^20 that puts
      half of the keys on the first half of the slots, one each, or the search has failed; the
      second is the least of 2^21 that separates the rest, or these are indistinguishable. */
  lemma BucketOutcome(mix: MixHash, bucket: seq<Entry>)
    ensures |bucket| <= 1 ==> BucketSeeds(mix, bucket) == Ok([])
    ensures |bucket| >= 2 ==> (Twins(bucket) <==> BucketSeeds(mix, bucket) == Err(DuplicateKey))
    ensures 2 <= |bucket| < 8 && !Twins(bucket) ==>
              match BucketSeeds(mix, bucket)
              case Ok(seeds) => |seeds| == 1 && FirstToSeparate(mix, bucket, seeds[0], 2097152)
              case Err(e) => e == Error.IndistinguishableHashes && NoneSeparates(mix, bucket)
    ensures |bucket| >= 8 && !Twins(bucket) ==> SplitSolved(mix, bucket, BucketSeeds(mix, bucket))
  {
    TwinsAre(bucket);
    if Twins(bucket) {
      DuplicatesReported(mix, bucket);
    } else if |bucket| >= 8 {
      LargeOutcome(mix, bucket);
      NotDuplicate(mix, bucket, BucketSeeds(mix, bucket));
    } else {
      PartOutcome(mix, bucket);
    }
    hide Twins, HasDuplicate, PartSeed, LeastSplit, SplitSolved, FirstToSeparate, NoneSeparates, SecondHalf;
  }

  lemma NotDuplicate(mix: MixHash, bucket: seq<Entry>, r: Result<seq<nat>, Error>)
    requires SplitSolved(mix, bucket, r)
    ensures r != Err(DuplicateKey)
  {
  }

  /** The split search fails exactly for eight keys or more, without duplicates, that none of the
      2^20 seeds splits. */
  lemma SplitSearchFails(mix: MixHash, bucket: seq<Entry>)
    ensures BucketSeeds(mix, bucket) == Err(SplitBucketSeedSearchFailed)
       <==> |bucket| >= 8 && !Twins(bucket) && forall s: nat :: s < 1048576 ==> !Splits(mix, bucket, s)
  {
    BucketOutcome(mix, bucket);
    if |bucket| >= 8 && !Twins(bucket) && NoneSplits(mix, bucket) {
      NothingFirst(mix, bucket, BucketSeeds(mix, bucket));
    }
    hide BucketSeeds, Splits, Separates, Twins, Rest;
  }

  lemma NothingFirst(mix: MixHash, bucket: seq<Entry>, r: Result<seq<nat>, Error>)
    requires SplitSolved(mix, bucket, r) && NoneSplits(mix, bucket)
    ensures r == Err(SplitBucketSeedSearchFailed)
  {
    hide Splits, Separates, Rest;
  }

  /** Keys are indistinguishable exactly if none of the 2^21 seeds separates them, or what the least
      splitting seed leaves of them. */
  lemma Indistinguishable(mix: MixHash, bucket: seq<Entry>)
    ensures BucketSeeds(mix, bucket) == Err(Error.IndistinguishableHashes)
       <==> && |bucket| >= 2 && !Twins(bucket)
            && if |bucket| < 8 then forall s: nat :: s < 2097152 ==> !Separates(mix, bucket, s)
               else exists s: nat :: FirstToSplit(mix, bucket, s, 1048576) && NoneSeparates(mix, Rest(mix, bucket, s))
  {
    BucketOutcome(mix, bucket);
    if |bucket| >= 8 && !Twins(bucket) {
      if s: nat :| FirstToSplit(mix, bucket, s, 1048576) && NoneSeparates(mix, Rest(mix, bucket, s)) {
        SecondFails(mix, bucket, s, BucketSeeds(mix, bucket));
      }
    }
    hide BucketSeeds, Splits, Separates, Twins, Rest, FirstToSplit;
  }

  lemma SecondFails(mix: MixHash, bucket: seq<Entry>, s: nat, r: Result<seq<nat>, Error>)
    requires SplitSolved(mix, bucket, r) && FirstToSplit(mix, bucket, s, 1048576) && NoneSeparates(mix, Rest(mix, bucket, s))
    ensures r == Err(Error.IndistinguishableHashes)
  {
    if r.Ok? {
      OneFirst(mix, bucket, s, r.value[0]);
    }
    hide Splits, Separates, Rest;
  }
}
