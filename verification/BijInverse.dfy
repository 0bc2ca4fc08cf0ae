/** The metadata of a bijection block determines the block: no two blocks of as many keys have
    the same bytes. */
module BijInverse {
  import opened Basics
  import opened Words
  import opened BitIO
  import opened SeedStream
  import opened EliasFano
  import opened BijSpec
  import opened BijMetadata
  import opened BijBlock
  import opened BijDecoder
  import opened BijQuery

  // ---------- Sizes ----------

  lemma OneMark(data: seq<Byte>, from: nat, a: nat, b: nat)
    requires NextMark(data, from, a) && NextMark(data, from, b)
    ensures a == b
  {
    hide StreamBit;
  }

  lemma {:induction false} MarksAgree(data: seq<Byte>, cum: seq<nat>, cum': seq<nat>, lowBits: nat, i: nat)
    requires Encodes(data, cum, lowBits) && Encodes(data, cum', lowBits) && |cum| == |cum'| && i < |cum|
    ensures MarkPos(cum, lowBits, i) == MarkPos(cum', lowBits, i)
  {
    hide *;
    if i > 0 {
      MarksAgree(data, cum, cum', lowBits, i - 1);
    }
    ScanFollows(cum, cum', lowBits, i);
    EncodesAt(data, cum, lowBits, i);
    EncodesAt(data, cum', lowBits, i);
    OneMark(data, Times(|cum|, lowBits) + ScanStart(cum, lowBits, i), Times(|cum|, lowBits) + MarkPos(cum, lowBits, i),
            Times(|cum|, lowBits) + MarkPos(cum', lowBits, i));
  }

  lemma ScanFollows(cum: seq<nat>, cum': seq<nat>, lowBits: nat, i: nat)
    requires |cum| == |cum'| && i < |cum| && (i > 0 ==> MarkPos(cum, lowBits, i - 1) == MarkPos(cum', lowBits, i - 1))
    ensures ScanStart(cum, lowBits, i) == ScanStart(cum', lowBits, i)
  {
    hide MarkPos;
  }

  /** The code of a sequence determines it. */
  lemma ValuesAgree(data: seq<Byte>, cum: seq<nat>, cum': seq<nat>, lowBits: nat)
    requires Encodes(data, cum, lowBits) && Encodes(data, cum', lowBits) && |cum| == |cum'|
    ensures cum == cum'
  {
    forall i | 0 <= i < |cum| ensures cum[i] == cum'[i] {
      MarksAgree(data, cum, cum', lowBits, i);
      assert Shifted(cum[i], lowBits) == Shifted(cum'[i], lowBits);
      hide *;
      EncodesAt(data, cum, lowBits, i);
      EncodesAt(data, cum', lowBits, i);
      CombinedIs(cum[i], lowBits);
      CombinedIs(cum'[i], lowBits);
    }
    hide *;
  }

  lemma SizesFollow(a: seq<nat>, b: seq<nat>)
    requires |a| == |b| && Cumulative(a) == Cumulative(b)
    ensures a == b
  {
    forall i | 0 <= i < |a| ensures a[i] == b[i] {
      SumNext(a, i);
      SumNext(b, i);
      SumStart(a);
      SumStart(b);
      assert Cumulative(a)[i] == Sum(a, i + 1) && Cumulative(b)[i] == Sum(b, i + 1);
      if i > 0 {
        assert Cumulative(a)[i - 1] == Sum(a, i) && Cumulative(b)[i - 1] == Sum(b, i);
      }
    }
  }

  // ---------- Seeds ----------

  lemma ReadsAsOnce(data: seq<Byte>, pos: nat, size: nat, a: seq<nat>, b: seq<nat>)
    requires ReadsAs(data, pos, size, a) && ReadsAs(data, pos, size, b)
    ensures a == b
  {
    PartSizesIs(size);
    hide SeedAt, SkipAt, PartSizes;
  }

  lemma NoCodes(sizes: seq<nat>, stored: seq<seq<nat>>)
    requires Matches(sizes, stored)
    ensures |Codes(sizes, stored, 0)| == 0
  {
  }

  lemma StreamsShape(data: seq<Byte>, sizes: seq<nat>, stored: seq<seq<nat>>)
    requires Streams(data, sizes, stored)
    ensures Matches(sizes, stored) && |stored| == |sizes|
  {
    hide HasBits, Codes, Codable, PartSizes;
  }

  // The stream says where each bucket's codes start, and what they are.
  lemma {:induction false} StoredAgree(data: seq<Byte>, sizes: seq<nat>, a: seq<seq<nat>>, b: seq<seq<nat>>, n: nat)
    requires Streams(data, sizes, a) && Streams(data, sizes, b) && n <= |sizes|
    ensures Matches(sizes, a) && Matches(sizes, b) && |a| == |b| == |sizes|
    ensures |Codes(sizes, a, n)| == |Codes(sizes, b, n)|
    ensures forall i :: 0 <= i < n ==> a[i] == b[i]
  {
    hide *;
    StreamsShape(data, sizes, a);
    StreamsShape(data, sizes, b);
    if n == 0 {
      NoCodes(sizes, a);
      NoCodes(sizes, b);
    } else {
      StoredAgree(data, sizes, a, b, n - 1);
      SkipLands(sizes, a, data, n - 1);
      SkipLands(sizes, b, data, n - 1);
      BucketReadsAs(data, sizes, a, n - 1);
      BucketReadsAs(data, sizes, b, n - 1);
      ReadsAsOnce(data, |Codes(sizes, a, n - 1)|, sizes[n - 1], a[n - 1], b[n - 1]);
    }
  }

  // Two lists at the end of the same bytes are the same list.
  lemma ListsAgree(metadata: seq<Byte>, at: nat, front: seq<Byte>, list: seq<FallbackEntry>, front': seq<Byte>, list': seq<FallbackEntry>)
    requires EndsInList(metadata, at, front, list) && EndsInList(metadata, at, front', list')
    ensures list == list'
  {
    ListFound(front, list, |front|);
    ListFound(front', list', |front|);
    assert metadata[|front|..] == FallbackBytes(list) && metadata[|front'|..] == FallbackBytes(list');
    hide FallbackBytes, EntryFits;
    FallbackRoundTrip(list);
    FallbackRoundTrip(list');
  }

  lemma SeedsFollow(A: Block, B: Block, b: nat)
    requires A.Valid() && B.Valid() && A.sizes == B.sizes && b < |A.sizes| && A.StoredAll() == B.StoredAll() && A.List() == B.List()
    ensures b < |A.seeds| && b < |B.seeds| && A.seeds[b] == B.seeds[b]
  {
    hide *;
    ValidFacts(A);
    ValidFacts(B);
    ListRecovers(A, b);
    ListRecovers(B, b);
    var stored, a, actual := A.StoredAll()[b], A.seeds[b], B.seeds[b];
    RecoversSame(B.List(), b, stored, a, actual);
    forall p | 0 <= p < |a| ensures a[p] == actual[p] {
      if stored[p] == FALLBACK_MARKER { MarkedIsListed(A, b, p); }
      RecoversAt(B.List(), b, stored, actual, p, a[p]);
    }
    assert a == actual;
  }

  lemma RecoversSame(list: seq<FallbackEntry>, b: nat, stored: seq<nat>, a: seq<nat>, actual: seq<nat>)
    requires Recovers(list, b, stored, a) && Recovers(list, b, stored, actual)
    ensures |a| == |actual| == |stored|
    ensures forall p :: 0 <= p < |stored| && stored[p] != FALLBACK_MARKER ==> a[p] == stored[p]
  {
    hide FoundFor;
  }

  lemma MarkedIsListed(B: Block, b: nat, p: nat)
    requires B.Valid() && b < |B.sizes| && b < |B.seeds| && b < |B.StoredAll()| && p < |B.seeds[b]| && p < |B.StoredAll()[b]|
    requires B.StoredAll()[b][p] == FALLBACK_MARKER
    ensures FoundFor(B.List(), b, p, B.seeds[b][p])
  {
    ValidFacts(B);
    hide Fallbacks, StoredSeed, Block.Valid, PartSizes;
    assert SeedsFit(B.seeds[b], B.sizes[b]);
    FallbackEntries(B.seeds, B.sizes, |B.sizes|, FallbackEntry(b, p, B.seeds[b][p]));
  }

  // ---------- The block ----------

  lemma SameSizes(A: Block, B: Block, metadata: seq<Byte>, ef: seq<Byte>, ss: seq<Byte>, ef': seq<Byte>, ss': seq<Byte>)
    requires Of(A, metadata, ef, ss) && Of(B, metadata, ef', ss') && A.Total() == B.Total()
    ensures A.sizes == B.sizes
  {
    QueryFacts(A, metadata, ef, ss, 0);
    QueryFacts(B, metadata, ef', ss', 0);
    assert Encodes(metadata[CHECKPOINTS_SIZE..], Cumulative(A.sizes), ComputeEFLowBits(NUM_BUCKETS, A.Total()));
    assert Encodes(metadata[CHECKPOINTS_SIZE..], Cumulative(B.sizes), ComputeEFLowBits(NUM_BUCKETS, B.Total()));
    hide *;
    ValuesAgree(metadata[CHECKPOINTS_SIZE..], Cumulative(A.sizes), Cumulative(B.sizes), ComputeEFLowBits(NUM_BUCKETS, A.Total()));
    SizesFollow(A.sizes, B.sizes);
  }

  /** Equal bytes and equal key counts mean equal blocks. */
  lemma MetadataDetermines(A: Block, B: Block, metadata: seq<Byte>)
    requires A.IsMetadata(metadata) && B.IsMetadata(metadata) && A.Total() == B.Total()
    ensures A == B
  {
    var ef, ss :| A.Layout(metadata, ef, ss);
    var ef', ss' :| B.Layout(metadata, ef', ss');
    assert Of(A, metadata, ef, ss) && Of(B, metadata, ef', ss');
    hide *;
    SameSizes(A, B, metadata, ef, ss, ef', ss');
    SameStored(A, B, metadata, ef, ss, ef', ss');
    forall b | 0 <= b < |A.sizes| ensures b < |A.seeds| && b < |B.seeds| && A.seeds[b] == B.seeds[b] {
      SeedsFollow(A, B, b);
    }
    SameBlock(A, B);
  }

  lemma SameBlock(A: Block, B: Block)
    requires A.Valid() && B.Valid() && A.sizes == B.sizes
    requires forall b :: 0 <= b < |A.sizes| ==> b < |A.seeds| && b < |B.seeds| && A.seeds[b] == B.seeds[b]
    ensures A == B
  {
    assert |A.seeds| == |A.sizes| == |B.seeds|;
    hide Block.Valid;
    assert A.seeds == B.seeds;
  }

  lemma SameStored(A: Block, B: Block, metadata: seq<Byte>, ef: seq<Byte>, ss: seq<Byte>, ef': seq<Byte>, ss': seq<Byte>)
    requires Of(A, metadata, ef, ss) && Of(B, metadata, ef', ss') && A.sizes == B.sizes && A.Total() == B.Total()
    ensures A.Valid() && B.Valid() && A.Shaped() && B.Shaped() && A.StoredAll() == B.StoredAll() && A.List() == B.List()
  {
    hide *;
    StreamsOf(A, metadata, ef, ss);
    StreamsOf(B, metadata, ef', ss');
    StartsAgree(A, B);
    StoredAgree(metadata[StreamStart(A)..], A.sizes, A.StoredAll(), B.StoredAll(), |A.sizes|);
    assert A.StoredAll() == B.StoredAll();
    ListsAgree(metadata, StreamStart(A), A.Checkpoints() + ef + ss, A.List(), B.Checkpoints() + ef' + ss', B.List());
  }

  // Where the seed stream starts.
  function StreamStart(B: Block): nat { CHECKPOINTS_SIZE + EliasFanoSize(NUM_BUCKETS, B.Total()) }

  lemma StartsAgree(A: Block, B: Block)
    requires A.Total() == B.Total()
    ensures StreamStart(A) == StreamStart(B)
  {
  }

  lemma StreamsOf(B: Block, metadata: seq<Byte>, ef: seq<Byte>, ss: seq<Byte>)
    requires Of(B, metadata, ef, ss)
    ensures B.Valid() && B.Shaped() && |B.StoredAll()| == |B.sizes| && StreamStart(B) < |metadata|
    ensures Streams(metadata[StreamStart(B)..], B.sizes, B.StoredAll())
    ensures EndsInList(metadata, StreamStart(B), B.Checkpoints() + ef + ss, B.List())
  {
    hide *;
    OfIs(B, metadata, ef, ss);
    StreamStartIs(B);
    ValidFacts(B);
    StreamHeld(B, metadata, ef, ss);
    StreamsShape(metadata[StreamStart(B)..], B.sizes, B.StoredAll());
    ListEnds(B, metadata, ef, ss);
  }

  lemma OfIs(B: Block, metadata: seq<Byte>, ef: seq<Byte>, ss: seq<Byte>)
    requires Of(B, metadata, ef, ss)
    ensures B.Valid() && B.Layout(metadata, ef, ss)
  {
    hide Block.Valid, Block.Layout;
  }

  lemma StreamStartIs(B: Block)
    ensures StreamStart(B) == CHECKPOINTS_SIZE + EliasFanoSize(NUM_BUCKETS, B.Total())
  {
    hide EliasFanoSize, Block.Total;
  }
}
