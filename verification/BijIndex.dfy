/** Indexes built with the bijection algorithm: the block builder that the whole-index theorems
    leave open, filled in. */
module BijIndex {
  import opened Basics
  import opened Encoding
  import opened LittleEndian
  import opened Words
  import opened FastRange
  import opened IndexFormat
  import opened IndexWriter
  import opened IndexLookup
  import R = Routing
  import opened BlockBuilding
  import opened BlockFacts
  import opened SortedBuilder
  import opened UnsortedLayout
  import opened UnsortedReader
  import opened UnsortedBlocks
  import BuildModes
  import UnsortedParallel
  import Pipeline
  import SlotPipeline
  import Grouping
  import S = BijSpec
  import M = BijMetadata
  import B = BijBlock
  import Q = BijQuery
  import BijInverse
  import F = BijPerfect
  import P = BijPayload
  import U = BijBuilder
  import EF = EliasFano

  // What the blocks of one index share.
  datatype Setup = Setup(g: F.Geometry, maxKeysPerBlock: nat) {
    ghost predicate Valid() { g.Valid() && maxKeysPerBlock <= B.MAX_UINT16 }
  }

  function PartsOf(g: F.Geometry, k0: UInt64, k1: UInt64): S.Parts { g.PartsOf(FromNat(k0), FromNat(k1)) }

  function ToEntry(g: F.Geometry, e: R.Entry, fpSize: nat): S.Entry {
    S.Entry(PartsOf(g, e.k0, e.k1), e.payload, R.ExtractFingerprint(e.k0, e.k1, fpSize))
  }

  // The routed entries as the block builder takes them.
  function Taken(g: F.Geometry, es: seq<R.Entry>, fpSize: nat): seq<S.Entry> {
    Map((e: R.Entry) => ToEntry(g, e, fpSize), es)
  }

  // ---------- The decoder ----------

  function Outcome(r: Result<nat, B.QueryError>): Result<nat, IndexError> {
    match r
    case Ok(slot) => Ok(slot)
    case Err(NotFound) => Err(NotFound)
    case Err(CorruptedIndex) => Err(CorruptedIndex)
  }

  // The bytes are those of some block of n keys.
  ghost predicate Stands(metadata: seq<Byte>, n: nat) {
    exists block: B.Block :: block.IsMetadata(metadata) && block.Total() == n
  }

  ghost function Standing(metadata: seq<Byte>, n: nat): (block: B.Block)
    requires Stands(metadata, n)
    ensures block.IsMetadata(metadata) && block.Total() == n
  {
    var block: B.Block :| block.IsMetadata(metadata) && block.Total() == n;
    block
  }

  // The only one there is.
  lemma StandsAlone(block: B.Block, metadata: seq<Byte>)
    requires block.IsMetadata(metadata)
    ensures Stands(metadata, block.Total()) && Standing(metadata, block.Total()) == block
  {
    hide B.Block.IsMetadata, B.Block.Total, Standing;
    BijInverse.MetadataDetermines(block, Standing(metadata, block.Total()), metadata);
  }

  // The answer of a block to a key, and its bucket.
  ghost function BlockAnswer(g: F.Geometry, block: B.Block, k0: UInt64, k1: UInt64): Result<nat, B.QueryError>
    requires g.Valid() && block.Shaped() && |block.sizes| == M.NUM_BUCKETS
  {
    Q.Answer(block, g.mix, PartsOf(g, k0, k1), g.bucketOf(FromNat(k0)))
  }

  // What a query answers: on the metadata of a block, what the block answers.
  ghost function Answered(g: F.Geometry, k0: UInt64, k1: UInt64, metadata: seq<Byte>, n: nat): Result<nat, IndexError>
    requires g.Valid()
  {
    if n == 0 then Err(NotFound)
    else if Stands(metadata, n) then
      Q.ValidFacts(Standing(metadata, n));
      Outcome(BlockAnswer(g, Standing(metadata, n), k0, k1))
    else Err(CorruptedIndex)
  }

  ghost function DecoderOf(g: F.Geometry): Decoder
    requires g.Valid()
  {
    (k0, k1, metadata, n) => Answered(g, k0, k1, metadata, n)
  }

  /** The query computes the decoder's answer from the bytes alone. */
  method Query(g: F.Geometry, k0: UInt64, k1: UInt64, metadata: seq<Byte>, n: nat) returns (r: Result<nat, IndexError>)
    requires g.Valid() && n <= B.MAX_UINT16
    ensures n == 0 || Stands(metadata, n) ==> r == DecoderOf(g)(k0, k1, metadata, n)
  {
    var word := FromNat(k0);
    hide *;
    ghost var block := B.Block([], []);
    if Stands(metadata, n) { block := Standing(metadata, n); }
    BucketBelow(g, word);
    var answer := Q.QuerySlot(g.mix, PartsOf(g, k0, k1), g.bucketOf(word), metadata, n, block);
    if n == 0 {
      NoKeysAnswer(g, k0, k1, metadata);
    } else if Stands(metadata, n) {
      DecoderTells(g, block, k0, k1, metadata);
      BlockAnswerIs(g, block, k0, k1);
    }
    return Outcome(answer);
  }

  lemma BucketBelow(g: F.Geometry, word: bv64)
    requires g.Valid()
    ensures g.bucketOf(word) < M.NUM_BUCKETS
  {
  }

  lemma NoKeysAnswer(g: F.Geometry, k0: UInt64, k1: UInt64, metadata: seq<Byte>)
    requires g.Valid()
    ensures DecoderOf(g)(k0, k1, metadata, 0) == Outcome(Err(B.QueryError.NotFound)) == Err(NotFound)
  {
  }

  // ---------- What the builder makes of a block ----------

  // The metadata and entries of a solved block.
  ghost predicate Solves(s: Setup, c: Config, entries: seq<S.Entry>, b: Block) {
    && F.Storable(s.g, entries) && F.Seeds(s.g, entries).Ok?
    && F.BlockOf(s.g, entries).IsMetadata(b.metadata)
    && b.numKeys == |entries| && |b.payloads| == Offset(|entries|, c.EntrySize())
    && (c.EntrySize() > 0 ==> P.StoresAll(b.payloads, s.g, entries, c.fingerprintSize, c.payloadSize))
  }

  /** What building a block yields: the empty block, a solved block, or nothing if there are
      too many keys, no seeds, or too many seeds without a code. */
  ghost predicate Yields(s: Setup, c: Config, es: seq<R.Entry>, r: Option<Block>) {
    var entries := Taken(s.g, es, c.fingerprintSize);
    if |es| == 0 then r.Some? && U.IsEmptyMetadata(r.value.metadata) && r.value.payloads == [] && r.value.numKeys == 0
    else if |es| > s.maxKeysPerBlock || !F.Storable(s.g, entries) then r == None
    else r.Some? && Solves(s, c, entries, r.value)
  }

  // The blocks `build` makes are the bijection builder's.
  ghost predicate Implements(s: Setup, c: Config, build: BlockBuilder) {
    s.Valid() && forall es :: Yields(s, c, es, build(es))
  }

  ghost predicate Yielded(s: Setup, c: Config, es: seq<R.Entry>, b: Block) {
    s.Valid() && Yields(s, c, es, Some(b))
  }

  lemma YieldedFacts(s: Setup, c: Config, es: seq<R.Entry>, b: Block)
    requires Yielded(s, c, es, b)
    ensures s.g.Valid()
    ensures |es| == 0 ==> U.IsEmptyMetadata(b.metadata) && b.payloads == [] && b.numKeys == 0
    ensures var entries := Taken(s.g, es, c.fingerprintSize); |entries| == |es| && (|es| > 0 ==> Solves(s, c, entries, b))
  {
    hide Solves, F.Geometry.Valid, U.IsEmptyMetadata, F.Storable;
  }

  lemma SolvesFacts(s: Setup, c: Config, entries: seq<S.Entry>, b: Block)
    requires Solves(s, c, entries, b)
    ensures F.Storable(s.g, entries) && F.Solved(s.g, entries) && F.Seeds(s.g, entries).Ok? && s.g.Valid()
    ensures var block := F.BlockOf(s.g, entries);
            && block.IsMetadata(b.metadata) && block.Valid() && block.Shaped() && |block.sizes| == M.NUM_BUCKETS && block.Total() == |entries| > 0
    ensures |b.metadata| > 0 && b.numKeys == |entries| && |b.payloads| == Offset(|entries|, c.EntrySize())
    ensures c.EntrySize() > 0 ==> P.StoresAll(b.payloads, s.g, entries, c.fingerprintSize, c.payloadSize)
  {
    F.SolvedShaped(s.g, entries);
    MetadataNotEmpty(F.BlockOf(s.g, entries), b.metadata);
    hide F.Seeds, F.BlockOf, B.Block.IsMetadata, B.Block.Shaped, B.Block.List, P.StoresAll, Offset, F.Geometry.Valid;
    assert F.BlockOf(s.g, entries).Valid() by { MetadataOfValid(F.BlockOf(s.g, entries), b.metadata); }
  }

  lemma MetadataOfValid(block: B.Block, metadata: seq<Byte>)
    requires block.IsMetadata(metadata)
    ensures block.Valid()
  {
    hide B.Block.Valid, B.Block.Layout;
  }

  lemma MetadataNotEmpty(block: B.Block, metadata: seq<Byte>)
    requires block.IsMetadata(metadata)
    ensures |metadata| > 0
  {
    hide B.Block.Valid, B.Block.IsEF, B.Block.IsSeedStream;
  }

  // ---------- The index built of such blocks ----------

  lemma DecoderTells(g: F.Geometry, block: B.Block, k0: UInt64, k1: UInt64, metadata: seq<Byte>)
    requires g.Valid() && block.IsMetadata(metadata)
    ensures block.Total() > 0 && block.Shaped() && |block.sizes| == M.NUM_BUCKETS
    ensures DecoderOf(g)(k0, k1, metadata, block.Total()) == Outcome(BlockAnswer(g, block, k0, k1))
  {
    MetadataOfValid(block, metadata);
    Q.ValidFacts(block);
    StandsAlone(block, metadata);
    hide Stands, Standing, B.Block.IsMetadata, B.Block.Total, B.Block.Shaped, B.Block.Valid, BlockAnswer, Outcome, F.Geometry.Valid;
  }

  lemma TakenAt(g: F.Geometry, es: seq<R.Entry>, fpSize: nat, i: nat)
    requires g.Valid() && i < |es|
    ensures |Taken(g, es, fpSize)| == |es| && Taken(g, es, fpSize)[i].parts == PartsOf(g, es[i].k0, es[i].k1)
    ensures Taken(g, es, fpSize)[i].payload == es[i].payload
    ensures Taken(g, es, fpSize)[i].fingerprint == R.ExtractFingerprint(es[i].k0, es[i].k1, fpSize)
    ensures g.Bucket(Taken(g, es, fpSize)[i]) == g.bucketOf(FromNat(es[i].k0)) < M.NUM_BUCKETS
  {
    F.BucketOfKey(g, FromNat(es[i].k0), FromNat(es[i].k1), es[i].payload, R.ExtractFingerprint(es[i].k0, es[i].k1, fpSize));
    hide F.Geometry.Bucket, F.Geometry.PartsOf, R.ExtractFingerprint, F.Geometry.Valid;
  }

  lemma SlotReads(s: Setup, c: Config, es: seq<R.Entry>, b: Block, i: nat)
    requires s.g.Valid() && Solves(s, c, Taken(s.g, es, c.fingerprintSize), b) && i < |es|
    ensures F.Solved(s.g, Taken(s.g, es, c.fingerprintSize)) && |Taken(s.g, es, c.fingerprintSize)| == |es|
    ensures Slot(DecoderOf(s.g), es, b, i) == Ok(F.Ranks(s.g, Taken(s.g, es, c.fingerprintSize))[i])
    ensures F.Ranks(s.g, Taken(s.g, es, c.fingerprintSize))[i] < |es|
  {
    hide *;
    var entries := Taken(s.g, es, c.fingerprintSize);
    TakenAt(s.g, es, c.fingerprintSize, i);
    SolvesFacts(s, c, entries, b);
    var block := F.BlockOf(s.g, entries);
    DecoderTells(s.g, block, es[i].k0, es[i].k1, b.metadata);
    RankAnswers(s.g, entries, i);
    BlockAnswerIs(s.g, block, es[i].k0, es[i].k1);
    SlotIs(DecoderOf(s.g), es, b, i);
    OutcomeIs(F.Ranks(s.g, entries)[i]);
  }

  lemma BlockAnswerIs(g: F.Geometry, block: B.Block, k0: UInt64, k1: UInt64)
    requires g.Valid() && block.Shaped() && |block.sizes| == M.NUM_BUCKETS && g.bucketOf(FromNat(k0)) < |block.sizes|
    ensures BlockAnswer(g, block, k0, k1) == Q.Answer(block, g.mix, PartsOf(g, k0, k1), g.bucketOf(FromNat(k0)))
  {
    hide Q.Answer, B.Block.Shaped, F.Geometry.Valid, PartsOf;
  }

  lemma OutcomeIs(slot: nat)
    ensures Outcome(Ok(slot)) == Ok(slot)
  {
  }

  lemma RankAnswers(g: F.Geometry, entries: seq<S.Entry>, i: nat)
    requires F.Solved(g, entries) && i < |entries|
    ensures F.BlockOf(g, entries).Shaped() && g.Bucket(entries[i]) < |F.BlockOf(g, entries).sizes|
    ensures Q.Answer(F.BlockOf(g, entries), g.mix, entries[i].parts, g.Bucket(entries[i])) == Ok(F.Ranks(g, entries)[i])
    ensures F.Ranks(g, entries)[i] < |entries|
  {
    F.SlotInStretch(g, entries, i);
    M.SumNext(F.BlockOf(g, entries).sizes, g.Bucket(entries[i]));
    hide S.BlockSeeds, S.LocalSlot, B.SeedsFit, M.Sum;
  }

  // Entry i of a solved block is stored at its rank.
  lemma StoredAt(s: Setup, c: Config, entries: seq<S.Entry>, region: seq<Byte>, i: nat)
    requires F.Solved(s.g, entries) && i < |entries| && F.Ranks(s.g, entries)[i] < |entries|
    requires |region| == Offset(|entries|, c.EntrySize())
    requires c.EntrySize() > 0 ==> P.StoresAll(region, s.g, entries, c.fingerprintSize, c.payloadSize)
    ensures var slot := F.Ranks(s.g, entries)[i];
            && Offset(slot, c.EntrySize()) + c.EntrySize() <= |region|
            && EntryOf(region, slot, c.EntrySize())
               == EntryBytes(entries[i].fingerprint, entries[i].payload, c.fingerprintSize, c.payloadSize)
  {
    var slot := F.Ranks(s.g, entries)[i];
    OffsetFits(slot, |entries|, c.EntrySize());
    if c.EntrySize() > 0 {
      assert P.Holds(region, slot, entries[i], c.fingerprintSize, c.payloadSize);
    }
    hide F.Ranks, EntryBytes, Offset, F.Solved;
  }

  lemma SolvesAt(s: Setup, c: Config, es: seq<R.Entry>, b: Block, i: nat)
    requires s.g.Valid() && Solves(s, c, Taken(s.g, es, c.fingerprintSize), b) && i < |es|
    ensures F.Solved(s.g, Taken(s.g, es, c.fingerprintSize)) && |Taken(s.g, es, c.fingerprintSize)| == |es|
    ensures Slot(DecoderOf(s.g), es, b, i) == Ok(F.Ranks(s.g, Taken(s.g, es, c.fingerprintSize))[i])
    ensures AnswersAt(c, DecoderOf(s.g), es, b, i)
  {
    hide *;
    var entries := Taken(s.g, es, c.fingerprintSize);
    TakenAt(s.g, es, c.fingerprintSize, i);
    SolvesFacts(s, c, entries, b);
    SlotReads(s, c, es, b, i);
    StoredAt(s, c, entries, b.payloads, i);
    AnswersAtIs(c, DecoderOf(s.g), es, b, i, F.Ranks(s.g, entries)[i]);
  }

  lemma YieldedAnswers(s: Setup, c: Config, es: seq<R.Entry>, b: Block)
    requires Yielded(s, c, es, b)
    ensures s.g.Valid() && Answers(c, DecoderOf(s.g), es, b)
  {
    hide *;
    YieldedFacts(s, c, es, b);
    var entries := Taken(s.g, es, c.fingerprintSize);
    if |es| > 0 {
      SolvesFacts(s, c, entries, b);
      F.SlotsAreBijection(s.g, entries);
      forall i | 0 <= i < |es|
        ensures AnswersAt(c, DecoderOf(s.g), es, b, i) && Slot(DecoderOf(s.g), es, b, i) == Ok(F.Ranks(s.g, entries)[i])
      {
        SolvesAt(s, c, es, b, i);
      }
      NoDupApart(F.Ranks(s.g, entries));
    }
    AnswersIf(c, DecoderOf(s.g), es, b);
  }

  // ---------- Equal blocks from equal keys ----------

  // The same key and the same bytes stored with it.
  ghost predicate Alike(a: S.Entry, b: S.Entry, fpSize: nat, payloadSize: nat) {
    && a.parts == b.parts
    && EntryBytes(a.fingerprint, a.payload, fpSize, payloadSize) == EntryBytes(b.fingerprint, b.payload, fpSize, payloadSize)
  }

  ghost predicate HasAlike(t: seq<S.Entry>, e: S.Entry, fpSize: nat, payloadSize: nat) {
    exists j :: 0 <= j < |t| && Alike(e, t[j], fpSize, payloadSize)
  }

  // Blocks that nothing built or stored can tell apart.
  ghost predicate Kin(s: Setup, c: Config, a: seq<S.Entry>, b: seq<S.Entry>) {
    && |a| == |b| && F.SameKeys(s.g, a, b)
    && forall i :: 0 <= i < |a| ==> HasAlike(b, a[i], c.fingerprintSize, c.payloadSize)
  }

  lemma KinFacts(s: Setup, c: Config, a: seq<S.Entry>, b: seq<S.Entry>)
    requires Kin(s, c, a, b)
    ensures |a| == |b| && F.SameKeys(s.g, a, b) && F.SameKeys(s.g, b, a)
  {
    hide HasAlike;
  }

  lemma KinAt(s: Setup, c: Config, a: seq<S.Entry>, b: seq<S.Entry>, i: nat)
    requires Kin(s, c, a, b) && i < |a|
    ensures HasAlike(b, a[i], c.fingerprintSize, c.payloadSize)
  {
    hide HasAlike, F.SameKeys;
  }

  lemma AlikeAt(t: seq<S.Entry>, e: S.Entry, c: Config) returns (j: nat)
    requires HasAlike(t, e, c.fingerprintSize, c.payloadSize)
    ensures j < |t| && e.parts == t[j].parts
    ensures EntryBytes(e.fingerprint, e.payload, c.fingerprintSize, c.payloadSize)
         == EntryBytes(t[j].fingerprint, t[j].payload, c.fingerprintSize, c.payloadSize)
  {
    j :| 0 <= j < |t| && Alike(e, t[j], c.fingerprintSize, c.payloadSize);
    hide EntryBytes;
  }

  lemma RankOfParts(g: F.Geometry, a: seq<S.Entry>, b: seq<S.Entry>, i: nat, j: nat)
    requires F.Storable(g, a) && F.SameKeys(g, a, b) && i < |a| && j < |b| && a[i].parts == b[j].parts
    ensures F.Solved(g, a) && F.Solved(g, b) && F.Ranks(g, a)[i] == F.Ranks(g, b)[j]
  {
    F.BlocksAgree(g, a, b);
    hide F.BlockOf, F.Seeds, B.Block.Shaped, B.Block.List, F.SameKeys;
  }

  lemma RegionsAgree(s: Setup, c: Config, a: seq<S.Entry>, b: seq<S.Entry>, regionA: seq<Byte>, regionB: seq<Byte>)
    requires Kin(s, c, a, b) && F.Storable(s.g, a) && F.Solved(s.g, a) && F.Solved(s.g, b)
    requires |regionA| == |regionB| == Offset(|a|, c.EntrySize())
    requires c.EntrySize() > 0 ==> P.StoresAll(regionA, s.g, a, c.fingerprintSize, c.payloadSize)
    requires c.EntrySize() > 0 ==> P.StoresAll(regionB, s.g, b, c.fingerprintSize, c.payloadSize)
    ensures regionA == regionB
  {
    hide *;
    KinFacts(s, c, a, b);
    forall r | 0 <= r < |a| ensures SameEntry(regionA, regionB, r, c.EntrySize()) {
      var i := P.RankTaken(s.g, a, r);
      KinAt(s, c, a, b, i);
      var j := AlikeAt(b, a[i], c);
      RankOfParts(s.g, a, b, i, j);
      StoredAt(s, c, a, regionA, i);
      StoredAt(s, c, b, regionB, j);
      SameEntryIf(regionA, regionB, r, c.EntrySize());
    }
    RegionDetermined(regionA, regionB, |a|, c.EntrySize());
    assert regionA[..Offset(|a|, c.EntrySize())] == regionA && regionB[..Offset(|a|, c.EntrySize())] == regionB;
  }

  lemma SolvesAgree(s: Setup, c: Config, entries: seq<S.Entry>, entries': seq<S.Entry>, b: Block, b': Block)
    requires Kin(s, c, entries, entries') && Solves(s, c, entries, b) && Solves(s, c, entries', b')
    ensures b == b'
  {
    hide *;
    KinFacts(s, c, entries, entries');
    SolvesFacts(s, c, entries, b);
    SolvesFacts(s, c, entries', b');
    F.BlocksAgree(s.g, entries, entries');
    B.MetadataUnique(F.BlockOf(s.g, entries), b.metadata, b'.metadata);
    RegionsAgree(s, c, entries, entries', b.payloads, b'.payloads);
  }

  lemma EmptyUnique(a: seq<Byte>, b: seq<Byte>)
    requires U.IsEmptyMetadata(a) && U.IsEmptyMetadata(b)
    ensures a == b
  {
    EF.CodedUnique(a[28..156], b[28..156], U.ZeroSizes(), 0);
    hide EF.Coded;
    assert a == a[..28] + a[28..156] + [0] && b == b[..28] + b[28..156] + [0];
    assert a[..28] == b[..28];
  }

  lemma TakenLength(g: F.Geometry, es: seq<R.Entry>, fpSize: nat)
    ensures |Taken(g, es, fpSize)| == |es|
  {
  }

  // A block builds the same, or not at all, from the same keys.
  lemma YieldsAgree(s: Setup, c: Config, es: seq<R.Entry>, es': seq<R.Entry>, r: Option<Block>, r': Option<Block>)
    requires Yields(s, c, es, r) && Yields(s, c, es', r')
    requires Kin(s, c, Taken(s.g, es, c.fingerprintSize), Taken(s.g, es', c.fingerprintSize))
    ensures r == r'
  {
    hide Kin, Solves, Taken, F.Storable, U.IsEmptyMetadata;
    var entries, entries' := Taken(s.g, es, c.fingerprintSize), Taken(s.g, es', c.fingerprintSize);
    KinFacts(s, c, entries, entries');
    TakenLength(s.g, es, c.fingerprintSize);
    TakenLength(s.g, es', c.fingerprintSize);
    if F.Storable(s.g, entries) { F.BlocksAgree(s.g, entries, entries'); }
    if F.Storable(s.g, entries') { F.BlocksAgree(s.g, entries', entries); }
    if r.Some? && r'.Some? {
      if |es| == 0 {
        EmptyUnique(r.value.metadata, r'.value.metadata);
      } else {
        SolvesAgree(s, c, entries, entries', r.value, r'.value);
      }
    }
  }

  lemma KinPerm(s: Setup, c: Config, a: seq<R.Entry>, b: seq<R.Entry>)
    requires multiset(a) == multiset(b)
    ensures Kin(s, c, Taken(s.g, a, c.fingerprintSize), Taken(s.g, b, c.fingerprintSize))
  {
    var entries, entries' := Taken(s.g, a, c.fingerprintSize), Taken(s.g, b, c.fingerprintSize);
    var f := (e: R.Entry) => ToEntry(s.g, e, c.fingerprintSize);
    MapPerm(f, a, b);
    assert entries == Map(f, a) && entries' == Map(f, b);
    PermLength(a, b);
    F.SameKeysFromPerm(s.g, entries, entries');
    hide ToEntry, F.SameKeys, EntryBytes;
    forall i | 0 <= i < |entries| ensures HasAlike(entries', entries[i], c.fingerprintSize, c.payloadSize) {
      SameMembers(entries, entries', entries[i]);
      var j :| 0 <= j < |entries'| && entries'[j] == entries[i];
      assert Alike(entries[i], entries'[j], c.fingerprintSize, c.payloadSize);
    }
  }

  lemma {:induction false} PartsByBucket(g: F.Geometry, a: seq<S.Entry>, b: seq<S.Entry>, bucket: nat)
    requires |a| == |b| && forall i :: 0 <= i < |a| ==> a[i].parts == b[i].parts
    ensures S.PartsOf(Grouping.Group(g.Classifier(), a, bucket)) == S.PartsOf(Grouping.Group(g.Classifier(), b, bucket))
  {
    if |a| > 0 {
      hide S.PartsOf, Grouping.Group, F.Geometry.Bucket;
      var n := |a| - 1;
      PartsByBucket(g, a[..n], b[..n], bucket);
      S.PartsAppend(Grouping.Group(g.Classifier(), a[..n], bucket), a[n]);
      S.PartsAppend(Grouping.Group(g.Classifier(), b[..n], bucket), b[n]);
      Grouping.GroupAppend(g.Classifier(), a[..n], a[n], bucket);
      Grouping.GroupAppend(g.Classifier(), b[..n], b[n], bucket);
      assert a == a[..n] + [a[n]] && b == b[..n] + [b[n]];
      hide S.PartsOf, Grouping.Group;
    }
  }

  lemma TrimAlike(s: Setup, c: Config, l: Layout, es: seq<R.Entry>, i: nat)
    requires l.payloadSize == c.payloadSize && i < |es|
    ensures |Taken(s.g, TrimAll(l, es), c.fingerprintSize)| == |Taken(s.g, es, c.fingerprintSize)| == |es|
    ensures Alike(Taken(s.g, TrimAll(l, es), c.fingerprintSize)[i], Taken(s.g, es, c.fingerprintSize)[i], c.fingerprintSize, c.payloadSize)
  {
    hide R.ExtractFingerprint, PartsOf;
  }

  lemma SameKeysByParts(g: F.Geometry, a: seq<S.Entry>, b: seq<S.Entry>)
    requires |a| == |b| && forall i :: 0 <= i < |a| ==> a[i].parts == b[i].parts
    ensures F.SameKeys(g, a, b)
  {
    forall bucket | 0 <= bucket < M.NUM_BUCKETS ensures S.SameParts(g.Buckets(a)[bucket], g.Buckets(b)[bucket]) {
      PartsByBucket(g, a, b, bucket);
    }
    hide S.SameParts, F.Geometry.Buckets;
  }

  lemma KinTrim(s: Setup, c: Config, l: Layout, es: seq<R.Entry>)
    requires l.payloadSize == c.payloadSize
    ensures Kin(s, c, Taken(s.g, TrimAll(l, es), c.fingerprintSize), Taken(s.g, es, c.fingerprintSize))
  {
    var a, b := Taken(s.g, TrimAll(l, es), c.fingerprintSize), Taken(s.g, es, c.fingerprintSize);
    TakenLength(s.g, TrimAll(l, es), c.fingerprintSize);
    TakenLength(s.g, es, c.fingerprintSize);
    hide Taken, TrimAll, EntryBytes, F.SameKeys, F.Geometry.Buckets;
    forall i | 0 <= i < |a| ensures Alike(a[i], b[i], c.fingerprintSize, c.payloadSize) {
      TrimAlike(s, c, l, es, i);
    }
    SameKeysByParts(s.g, a, b);
  }

  // ---------- What the whole-index theorems ask ----------

  lemma YieldedBuilds(s: Setup, c: Config, es: seq<R.Entry>, b: Block)
    requires Yielded(s, c, es, b)
    ensures b.numKeys == |es| && |b.payloads| == Offset(|es|, c.EntrySize())
  {
    hide *;
    YieldedFacts(s, c, es, b);
    if |es| > 0 {
      SolvesFacts(s, c, Taken(s.g, es, c.fingerprintSize), b);
    } else {
      NoKeys(c.EntrySize());
    }
  }

  // Any key's slot lies within the block.
  lemma AnswerInRange(g: F.Geometry, block: B.Block, k0: UInt64, k1: UInt64)
    requires g.Valid() && block.Shaped() && |block.sizes| == M.NUM_BUCKETS
    ensures BlockAnswer(g, block, k0, k1).Ok? ==> BlockAnswer(g, block, k0, k1).value < block.Total()
  {
    var b := g.bucketOf(FromNat(k0));
    assert b < M.NUM_BUCKETS;
    assert B.SeedsFit(block.seeds[b], block.sizes[b]);
    F.SeedsFitLength(block.seeds[b], block.sizes[b]);
    M.SumNext(block.sizes, b);
    M.SumMonotone(block.sizes, b + 1, M.NUM_BUCKETS);
    hide S.LocalSlot, M.Sum, B.SeedsFit, PartsOf;
    if block.sizes[b] > 0 {
      S.LocalSlotInRange(g.mix, PartsOf(g, k0, k1), block.sizes[b], block.seeds[b]);
    }
  }

  lemma OutcomeOk(r: Result<nat, B.QueryError>)
    ensures Outcome(r).Ok? == r.Ok? && (r.Ok? ==> Outcome(r) == Ok(r.value))
  {
  }

  lemma YieldedInRange(s: Setup, c: Config, es: seq<R.Entry>, b: Block)
    requires Yielded(s, c, es, b)
    ensures s.g.Valid() && StaysInRange(DecoderOf(s.g), b)
  {
    hide *;
    YieldedFacts(s, c, es, b);
    YieldedBuilds(s, c, es, b);
    var entries := Taken(s.g, es, c.fingerprintSize);
    forall k0: UInt64, k1: UInt64
      ensures DecoderOf(s.g)(k0, k1, b.metadata, b.numKeys).Ok? ==> DecoderOf(s.g)(k0, k1, b.metadata, b.numKeys).value < b.numKeys
    {
      if |es| > 0 {
        SolvesFacts(s, c, entries, b);
        var block := F.BlockOf(s.g, entries);
        DecoderTells(s.g, block, k0, k1, b.metadata);
        AnswerInRange(s.g, block, k0, k1);
        OutcomeOk(BlockAnswer(s.g, block, k0, k1));
      } else {
        NoKeysAnswer(s.g, k0, k1, b.metadata);
      }
    }
    InRangeIf(DecoderOf(s.g), b);
  }

  lemma BuildYields(s: Setup, c: Config, build: BlockBuilder, es: seq<R.Entry>)
    requires Implements(s, c, build)
    ensures s.g.Valid() && Yields(s, c, es, build(es))
    ensures build(es).Some? ==> Yielded(s, c, es, build(es).value)
  {
    hide Yields, F.Geometry.Valid;
  }

  lemma NoKeysBuild(s: Setup, c: Config, r: Option<Block>)
    requires Yields(s, c, [], r)
    ensures r.Some?
  {
    hide U.IsEmptyMetadata;
  }

  /** Blocks built by the bijection algorithm meet everything the whole-index theorems ask of an
      algorithm: they answer their own keys, depend on neither the order of the keys nor a
      payload there is no field for, and answer any key at all within range. */
  lemma MeetsAll(s: Setup, c: Config, build: BlockBuilder)
    requires Implements(s, c, build)
    ensures s.g.Valid() && Builds(c, build) && BuildModes.Correct(c, DecoderOf(s.g), build)
    ensures BuildModes.OrderFree(build) && BuildModes.InRange(DecoderOf(s.g), build)
  {
    BuildYields(s, c, build, []);
    NoKeysBuild(s, c, build([]));
    forall es | build(es).Some?
      ensures build(es).value.numKeys == |es| && |build(es).value.payloads| == Offset(|es|, c.EntrySize())
      ensures Answers(c, DecoderOf(s.g), es, build(es).value) && StaysInRange(DecoderOf(s.g), build(es).value)
    {
      hide *;
      BuildYields(s, c, build, es);
      YieldedBuilds(s, c, es, build(es).value);
      YieldedAnswers(s, c, es, build(es).value);
      YieldedInRange(s, c, es, build(es).value);
    }
    forall a, b | multiset(a) == multiset(b) ensures build(a) == build(b) {
      hide *;
      BuildYields(s, c, build, a);
      BuildYields(s, c, build, b);
      KinPerm(s, c, a, b);
      YieldsAgree(s, c, a, b, build(a), build(b));
    }
    hide Implements, Answers, StaysInRange, DecoderOf, Offset, F.Geometry.Valid;
  }

  lemma MeetsPayloadFree(s: Setup, c: Config, l: Layout, build: BlockBuilder)
    requires Implements(s, c, build) && l.payloadSize == c.payloadSize
    ensures BuildModes.PayloadFree(l, build)
  {
    forall es ensures build(TrimAll(l, es)) == build(es) {
      hide *;
      BuildYields(s, c, build, TrimAll(l, es));
      BuildYields(s, c, build, es);
      KinTrim(s, c, l, es);
      YieldsAgree(s, c, TrimAll(l, es), es, build(TrimAll(l, es)), build(es));
    }
    hide Implements, TrimAll;
  }

  // ---------- A worker builds a block ----------

  lemma NothingTaken(g: F.Geometry, fpSize: nat)
    ensures Taken(g, [], fpSize) == []
  {
  }

  lemma TakenAppend(g: F.Geometry, es: seq<R.Entry>, i: nat, fpSize: nat)
    requires i < |es|
    ensures Taken(g, es[..i + 1], fpSize) == Taken(g, es[..i], fpSize) + [ToEntry(g, es[i], fpSize)]
  {
    hide ToEntry;
  }

  lemma FingerprintsFit(g: F.Geometry, es: seq<R.Entry>, fpSize: nat)
    ensures forall e :: e in Taken(g, es, fpSize) ==> e.fingerprint < Pow2(8 * fpSize)
  {
    hide PartsOf, R.ExtractFingerprint, Pow2;
    forall i | 0 <= i < |es| ensures Taken(g, es, fpSize)[i].fingerprint < Pow2(8 * fpSize) {
      FingerprintFits(es[i].k0, es[i].k1, fpSize);
    }
  }

  /** A worker's turn: the builder is reset, filled and run, and yields the block. */
  method BuildBlock(builder: U.Builder, c: Config, es: seq<R.Entry>, metadataBuf: array<Byte>) returns (r: Option<Block>)
    requires builder.Valid() && builder.fingerprintSize == c.fingerprintSize && builder.payloadSize == c.payloadSize
    requires U.EstimateMetadataSize(|es|) <= metadataBuf.Length
    modifies builder, builder.slots, builder.seedEncoder, metadataBuf
    ensures builder.Valid() && builder.g.Valid()
    ensures Yields(Setup(builder.g, builder.maxKeysPerBlock), c, es, r)
  {
    var fpSize := c.fingerprintSize;
    builder.Reset();
    hide Taken, ToEntry, R.ExtractFingerprint, U.Builder.Valid, U.EstimateMetadataSize, Yields, PartsOf;
    NothingTaken(builder.g, fpSize);
    assert es[..0] == [];
    for i := 0 to |es|
      invariant builder.Valid() && builder.added == Taken(builder.g, es[..i], fpSize)
      invariant builder.slots == old(builder.slots)
    {
      var e := es[i];
      TakenAppend(builder.g, es, i, fpSize);
      EntryIs(builder.g, e, fpSize);
      builder.AddKey(FromNat(e.k0), FromNat(e.k1), e.payload, R.ExtractFingerprint(e.k0, e.k1, fpSize));
    }
    assert es[..|es|] == es;
    r := Run(builder, c, es, metadataBuf);
  }

  lemma EntryIs(g: F.Geometry, e: R.Entry, fpSize: nat)
    ensures ToEntry(g, e, fpSize)
         == S.Entry(g.PartsOf(FromNat(e.k0), FromNat(e.k1)), e.payload, R.ExtractFingerprint(e.k0, e.k1, fpSize))
  {
    hide R.ExtractFingerprint;
  }

  // Runs a filled builder.
  method Run(builder: U.Builder, c: Config, es: seq<R.Entry>, metadataBuf: array<Byte>) returns (r: Option<Block>)
    requires builder.Valid() && builder.fingerprintSize == c.fingerprintSize && builder.payloadSize == c.payloadSize
    requires U.EstimateMetadataSize(|es|) <= metadataBuf.Length && builder.added == Taken(builder.g, es, c.fingerprintSize)
    modifies builder, builder.slots, builder.seedEncoder, metadataBuf
    ensures builder.Valid() && builder.g.Valid()
    ensures Yields(Setup(builder.g, builder.maxKeysPerBlock), c, es, r)
  {
    hide *;
    builder.Limits();
    BuilderGeometry(builder);
    TakenLength(builder.g, es, c.fingerprintSize);
    FingerprintsFit(builder.g, es, c.fingerprintSize);
    ghost var s := Setup(builder.g, builder.maxKeysPerBlock);
    var payloadsBuf := new Byte[Offset(|es|, c.payloadSize + c.fingerprintSize)](_ => 0);
    var built := builder.BuildSeparatedInto(metadataBuf, payloadsBuf);
    if |es| == 0 {
      r := Some(Block(metadataBuf[..157], [], 0));
      EmptyYields(s, c, es, r.value);
    } else if built.Err? {
      r := None;
      NoSeeds(s.g, builder.added);
      FailedYields(s, c, es);
    } else {
      WrittenSolves(builder, c, built.value, metadataBuf[..], payloadsBuf[..]);
      r := Some(Block(metadataBuf[..][..built.value.metadataLen], payloadsBuf[..][..built.value.payloadsLen], built.value.numKeys));
      SolvedYields(s, c, es, r.value);
    }
  }

  lemma BuilderGeometry(builder: U.Builder)
    requires builder.Valid()
    ensures builder.g.Valid()
  {
  }

  lemma EmptyYields(s: Setup, c: Config, es: seq<R.Entry>, b: Block)
    requires |es| == 0 && U.IsEmptyMetadata(b.metadata) && b.payloads == [] && b.numKeys == 0
    ensures Yields(s, c, es, Some(b))
  {
    hide U.IsEmptyMetadata;
  }

  lemma NoSeeds(g: F.Geometry, entries: seq<S.Entry>)
    ensures F.Seeds(g, entries).Err? ==> !F.Storable(g, entries)
  {
    hide F.Seeds;
  }

  lemma FailedYields(s: Setup, c: Config, es: seq<R.Entry>)
    requires |es| > 0 && (|es| > s.maxKeysPerBlock || !F.Storable(s.g, Taken(s.g, es, c.fingerprintSize)))
    ensures Yields(s, c, es, None)
  {
    hide F.Storable, Taken;
  }

  lemma SolvedYields(s: Setup, c: Config, es: seq<R.Entry>, b: Block)
    requires 0 < |es| <= s.maxKeysPerBlock && Solves(s, c, Taken(s.g, es, c.fingerprintSize), b)
    ensures Yields(s, c, es, Some(b))
  {
    hide F.Seeds, F.BlockOf, Taken, B.Block.IsMetadata, B.Block.Shaped, B.Block.List, P.StoresAll, F.Geometry.Valid;
  }

  lemma WrittenSolves(builder: U.Builder, c: Config, built: U.Built, metadata: seq<Byte>, payloads: seq<Byte>)
    requires builder.Written(built, metadata, payloads)
    requires builder.fingerprintSize == c.fingerprintSize && builder.payloadSize == c.payloadSize
    requires |payloads| == Offset(|builder.added|, c.payloadSize + c.fingerprintSize)
    ensures built.metadataLen <= |metadata| && built.payloadsLen <= |payloads|
    ensures Solves(Setup(builder.g, builder.maxKeysPerBlock), c, builder.added,
                   Block(metadata[..built.metadataLen], payloads[..built.payloadsLen], built.numKeys))
  {
    hide *;
    assert payloads[..|payloads|] == payloads;
    SizesCommute(c);
    WrittenFacts(builder, built, metadata, payloads);
    SolvesIf(Setup(builder.g, builder.maxKeysPerBlock), c, builder.added,
             Block(metadata[..built.metadataLen], payloads[..built.payloadsLen], built.numKeys));
  }

  lemma WrittenFacts(builder: U.Builder, built: U.Built, metadata: seq<Byte>, payloads: seq<Byte>)
    requires builder.Written(built, metadata, payloads)
    ensures var g, entries, size := builder.g, builder.added, builder.fingerprintSize + builder.payloadSize;
            && F.Storable(g, entries) && F.Solved(g, entries) && F.Seeds(g, entries).Ok?
            && built.payloadsLen == Offset(|entries|, size) && built.numKeys == |entries|
            && built.metadataLen <= |metadata| && F.BlockOf(g, entries).IsMetadata(metadata[..built.metadataLen])
            && (size > 0 ==> P.StoresAll(payloads, g, entries, builder.fingerprintSize, builder.payloadSize))
  {
    F.SolvedSeeds(builder.g, builder.added);
    hide F.Storable, F.Solved, F.Seeds, F.BlockOf, B.Block.IsMetadata, P.StoresAll, Offset;
  }

  lemma SolvesIf(s: Setup, c: Config, entries: seq<S.Entry>, b: Block)
    requires F.Storable(s.g, entries) && F.Solved(s.g, entries) && F.Seeds(s.g, entries).Ok?
    requires F.BlockOf(s.g, entries).IsMetadata(b.metadata)
    requires b.numKeys == |entries| && |b.payloads| == Offset(|entries|, c.EntrySize())
    requires c.EntrySize() > 0 ==> P.StoresAll(b.payloads, s.g, entries, c.fingerprintSize, c.payloadSize)
    ensures Solves(s, c, entries, b)
  {
    hide F.Storable, F.Solved, F.Seeds, F.BlockOf, B.Block.IsMetadata, P.StoresAll, Offset;
  }

  // ---------- There is such an implementation ----------

  // The Elias-Fano section of a block.
  lemma SectionExists(b: B.Block) returns (ef: seq<Byte>)
    requires b.Valid()
    ensures b.IsEF(ef)
  {
    B.EFBounds(b.Total());
    M.CumulativeFacts(b.sizes);
    hide EF.ComputeEFLowBits, EF.EliasFanoSize, EF.Coded, EF.Encodes, B.Block.Shaped, B.Block.List;
    ef := CodeExists(b.Cum(), b.Total());
  }

  // The code of any non-decreasing sequence.
  lemma CodeExists(cum: seq<nat>, U: nat) returns (data: seq<Byte>)
    requires |cum| > 0 && EF.ComputeEFLowBits(|cum|, U) < 16
    requires (forall k :: 0 < k < |cum| ==> cum[k - 1] <= cum[k]) && forall k :: 0 <= k < |cum| ==> cum[k] <= U
    ensures |data| == EF.EliasFanoSize(|cum|, U)
    ensures EF.Coded(data, cum, EF.ComputeEFLowBits(|cum|, U), |cum|)
    ensures EF.Encodes(data, cum, EF.ComputeEFLowBits(|cum|, U))
  {
    hide EF.ComputeEFLowBits, EF.HighBound, EF.Marked, EF.LowSeq;
    var lowBits := EF.ComputeEFLowBits(|cum|, U);
    var n := EF.EliasFanoSize(|cum|, U);
    var base := EF.Times(|cum|, lowBits);
    data := BytesOf(seq(8 * n, p requires 0 <= p < 8 * n =>
      if p < base then EF.LowSeq(cum, lowBits, |cum|)[p] else EF.Marked(cum, lowBits, |cum|, p - base)), n);
    hide StreamBit;
    EF.CodedEncodes(data, cum, U, lowBits);
  }

  lemma MetadataExists(b: B.Block) returns (metadata: seq<Byte>)
    requires b.Valid()
    ensures b.IsMetadata(metadata)
  {
    hide B.Block.Shaped;
    var ef := SectionExists(b);
    var bits := b.SeedBits();
    var n := (|bits| + 7) / 8;
    var ss := BytesOf(bits + Zeros(8 * n - |bits|), n);
    hide StreamBit, B.Block.IsEF, B.Block.SeedBits;
    assert b.IsSeedStream(ss);
    metadata := b.Checkpoints() + ef + ss + M.FallbackBytes(b.List());
    assert b.Layout(metadata, ef, ss);
  }

  lemma EmptyExists() returns (metadata: seq<Byte>)
    ensures U.IsEmptyMetadata(metadata)
  {
    var ef := BytesOf(seq(1024, _ => true), 128);
    hide StreamBit;
    U.OnesCodeZeros(ef);
    hide EF.Coded;
    metadata := seq(28, _ => 0) + ef + [0];
    assert metadata[28..156] == ef;
  }

  lemma RanksFit(g: F.Geometry, entries: seq<S.Entry>)
    requires F.Solved(g, entries)
    ensures NoDup(F.Ranks(g, entries)) && |F.Ranks(g, entries)| == |entries|
    ensures forall i :: 0 <= i < |entries| ==> F.Ranks(g, entries)[i] < |entries|
  {
    F.SlotsAreBijection(g, entries);
    hide F.Solved;
    RanksLength(g, entries);
    hide F.Ranks;
    forall i | 0 <= i < |entries| ensures F.Ranks(g, entries)[i] < |entries| {
      assert F.Ranks(g, entries)[i] in Range(|entries|);
    }
  }

  lemma RanksLength(g: F.Geometry, entries: seq<S.Entry>)
    requires F.Solved(g, entries)
    ensures |F.Ranks(g, entries)| == |entries|
  {
    hide F.Solved;
  }

  function Contents(c: Config, entries: seq<S.Entry>): (r: seq<seq<Byte>>)
    ensures |r| == |entries| && forall i :: 0 <= i < |r| ==> |r[i]| == c.EntrySize()
  {
    seq(|entries|, i requires 0 <= i < |entries| =>
      EntryBytes(entries[i].fingerprint, entries[i].payload, c.fingerprintSize, c.payloadSize))
  }

  lemma HoldsContents(c: Config, entries: seq<S.Entry>, region: seq<Byte>, slot: nat, i: nat)
    requires i < |entries| && Offset(slot, c.EntrySize()) + c.EntrySize() <= |region|
    requires EntryOf(region, slot, c.EntrySize()) == Contents(c, entries)[i]
    ensures P.Holds(region, slot, entries[i], c.fingerprintSize, c.payloadSize)
  {
    SizesCommute(c);
    hide EntryOf, EntryBytes, Offset;
  }

  lemma StoresExist(g: F.Geometry, c: Config, entries: seq<S.Entry>) returns (payloads: seq<Byte>)
    requires F.Solved(g, entries)
    ensures |payloads| == Offset(|entries|, c.EntrySize())
    ensures P.StoresAll(payloads, g, entries, c.fingerprintSize, c.payloadSize)
  {
    hide *;
    RanksFit(g, entries);
    var ranks := F.Ranks(g, entries);
    payloads := RegionExists(ranks, Contents(c, entries), |entries|, c.EntrySize(), |entries|);
    forall i | 0 <= i < |entries| ensures P.Holds(payloads, ranks[i], entries[i], c.fingerprintSize, c.payloadSize) {
      HoldsContents(c, entries, payloads, ranks[i], i);
    }
    HoldAll(g, c, entries, payloads);
  }

  lemma HoldAll(g: F.Geometry, c: Config, entries: seq<S.Entry>, region: seq<Byte>)
    requires F.Solved(g, entries) && |F.Ranks(g, entries)| == |entries|
    requires forall i :: 0 <= i < |entries| ==> P.Holds(region, F.Ranks(g, entries)[i], entries[i], c.fingerprintSize, c.payloadSize)
    ensures P.StoresAll(region, g, entries, c.fingerprintSize, c.payloadSize)
  {
    hide P.Holds, F.Ranks, F.Solved;
  }

  lemma StorableValid(g: F.Geometry, entries: seq<S.Entry>)
    requires F.Storable(g, entries)
    ensures F.Solved(g, entries) && F.Seeds(g, entries).Ok? && F.BlockOf(g, entries).Valid()
  {
    F.SolvedSeeds(g, entries);
    F.SolvedShaped(g, entries);
    hide F.Seeds, F.BlockOf, B.Block.Shaped, B.Block.List;
  }

  lemma SomethingYielded(s: Setup, c: Config, es: seq<R.Entry>)
    ensures exists r :: Yields(s, c, es, r)
  {
    hide *;
    var entries := Taken(s.g, es, c.fingerprintSize);
    TakenLength(s.g, es, c.fingerprintSize);
    if |es| == 0 {
      var metadata := EmptyExists();
      EmptyYields(s, c, es, Block(metadata, [], 0));
    } else if |es| > s.maxKeysPerBlock || !F.Storable(s.g, entries) {
      FailedYields(s, c, es);
    } else {
      StorableValid(s.g, entries);
      var metadata := MetadataExists(F.BlockOf(s.g, entries));
      var payloads := StoresExist(s.g, c, entries);
      var b := Block(metadata, payloads, |entries|);
      SolvesIf(s, c, entries, b);
      SolvedYields(s, c, es, b);
    }
  }

  ghost function Yield(s: Setup, c: Config, es: seq<R.Entry>): (r: Option<Block>)
    ensures Yields(s, c, es, r)
  {
    SomethingYielded(s, c, es);
    var r :| Yields(s, c, es, r);
    r
  }

  /** Such blocks can be made of any entries: the hypothesis of the theorems about the index can be
      met for every setup, and in one way only. */
  lemma ImplementedOnce(s: Setup, c: Config) returns (build: BlockBuilder)
    requires s.Valid()
    ensures Implements(s, c, build)
    ensures forall other :: Implements(s, c, other) ==> forall es :: other(es) == build(es)
  {
    build := (es: seq<R.Entry>) => Yield(s, c, es);
    hide Yields, Setup.Valid, F.Geometry.Valid;
    forall other, es | Implements(s, c, other) ensures other(es) == build(es) {
      hide *;
      BuildYields(s, c, other, es);
      BuildYields(s, c, build, es);
      KinPerm(s, c, es, es);
      YieldsAgree(s, c, es, es, other(es), build(es));
    }
  }

  // ---------- Bijection indexes ----------

  lemma Succeeds(s: Setup, c: Config, build: BlockBuilder, added: seq<R.Entry>)
    requires Implements(s, c, build) && BuildModes.Buildable(c, build, added)
    ensures s.g.Valid() && BuildModes.Success(c, build, added)
    ensures BuildModes.Correct(c, DecoderOf(s.g), build) && BuildModes.InRange(DecoderOf(s.g), build)
  {
    MeetsAll(s, c, build);
    hide Implements, Builds, BuildModes.Buildable, BuildModes.Correct, BuildModes.InRange;
  }

  /** In a finished bijection index every key added is answered its rank and its own payload. */
  lemma EveryKeyIsFound(s: Setup, c: Config, h: HashFn, build: BlockBuilder, added: seq<R.Entry>, i: nat, key: seq<Byte>)
    requires Implements(s, c, build) && BuildModes.Buildable(c, build, added)
    requires i < |added| && added[i].payload < Pow256(c.payloadSize)
    requires |key| >= 16 && R.Word(key[0..8]) == added[i].k0 && R.Word(key[8..16]) == added[i].k1
    ensures s.g.Valid() && BuildModes.Success(c, build, added) && BuildModes.Finished(c, h, build, added).Valid()
    ensures QueryPayload(BuildModes.Finished(c, h, build, added), DecoderOf(s.g), key)
         == Ok((BuildModes.RankOf(c, DecoderOf(s.g), build, added, i), added[i].payload))
  {
    Succeeds(s, c, build, added);
    hide Implements, BuildModes.Correct, BuildModes.InRange, BuildModes.Finished, BuildModes.RankOf, QueryPayload;
    BuildModes.EveryKeyIsFound(c, h, DecoderOf(s.g), build, added, i, key);
  }

  /** The ranks of its N keys are 0 .. N - 1, each once, and keys never added are answered below
      N, too, or an error. */
  lemma RanksAreAll(s: Setup, c: Config, h: HashFn, build: BlockBuilder, added: seq<R.Entry>, k0: UInt64, k1: UInt64, check: bool)
    requires Implements(s, c, build) && BuildModes.Buildable(c, build, added)
    ensures s.g.Valid() && BuildModes.Success(c, build, added) && BuildModes.Finished(c, h, build, added).Valid()
    ensures NoDup(BuildModes.Ranks(c, DecoderOf(s.g), build, added))
    ensures (set r | r in BuildModes.Ranks(c, DecoderOf(s.g), build, added)) == Range(|added|)
    ensures var r := Lookup(BuildModes.Finished(c, h, build, added), DecoderOf(s.g), k0, k1, check); r.Ok? ==> r.value < |added|
  {
    Succeeds(s, c, build, added);
    hide Implements, BuildModes.Correct, BuildModes.InRange, BuildModes.Finished, BuildModes.Ranks, Lookup;
    BuildModes.RanksAreAll(c, DecoderOf(s.g), build, added);
    BuildModes.AnyKeyStaysInRange(c, h, DecoderOf(s.g), build, added, k0, k1, check);
  }

  /** The unsorted build makes the blocks of the sorted one, whatever the order and the writers. */
  lemma UnsortedIsSorted(s: Setup, c: Config, l: Layout, build: BlockBuilder, writers: seq<seq<R.Entry>>, added: seq<R.Entry>,
                         blocks: seq<seq<R.Entry>>)
    requires Implements(s, c, build) && l.payloadSize == c.payloadSize && |blocks| == l.numBlocks
    requires multiset(Concat(writers)) == multiset(added)
    requires forall b :: 0 <= b < |blocks| ==> blocks[b] == BlockEntries(l, writers, b) || TrimAll(l, blocks[b]) == BlockEntries(l, writers, b)
    ensures AllBuild(build, blocks) <==> AllBuild(build, BlocksOf(l.numBlocks, added, l.numBlocks))
    ensures AllBuild(build, blocks) ==> Built(build, blocks) == Built(build, BlocksOf(l.numBlocks, added, l.numBlocks))
  {
    MeetsAll(s, c, build);
    MeetsPayloadFree(s, c, l, build);
    hide Implements, BuildModes.Correct, BuildModes.InRange, BuildModes.OrderFree, BuildModes.PayloadFree, TrimAll, BlockEntries;
    BuildModes.UnsortedIsSorted(l, build, writers, added, blocks);
  }

  /** However the keys were spread over unsorted writers and whatever the interleaving, a parallel
      finish without an error publishes the file of the serial bijection build of the sorted keys. */
  lemma ParallelUnsortedIsSerial(s: Setup, l: Layout, j: Pipeline.Job, writers: seq<seq<R.Entry>>, added: seq<R.Entry>, file: seq<Byte>,
                                 steps: seq<SlotPipeline.Step>, t: SlotPipeline.State)
    requires Implements(s, j.c, j.build) && l.Valid() && l.payloadSize == j.c.payloadSize
    requires SlotPipeline.Counted(j) && |j.blocks| == l.numBlocks == j.c.numBlocks && j.workers > 1
    requires forall b :: 0 <= b < |j.blocks| ==> j.blocks[b] == BlockEntries(l, writers, b)
    requires multiset(Concat(writers)) == multiset(added)
    requires SlotPipeline.Reaches(UnsortedParallel.PlanOf(l, j.blocks, j.workers), j, file, steps, t) && t.slots.main.result == Some(true)
    ensures j.c.Valid() && AllBuild(j.build, BlocksOf(j.c.numBlocks, added, j.c.numBlocks))
    ensures t.pipe.main.published == IndexBytes(j.c, j.h, Built(j.build, BlocksOf(j.c.numBlocks, added, j.c.numBlocks)))
  {
    MeetsAll(s, j.c, j.build);
    MeetsPayloadFree(s, j.c, l, j.build);
    hide Implements, Builds, BuildModes.Correct, BuildModes.InRange, BuildModes.OrderFree, BuildModes.PayloadFree, BlockEntries, IndexBytes,
      SlotPipeline.Reaches, SlotPipeline.Counted;
    UnsortedParallel.ParallelIsSerial(l, j, writers, added, file, steps, t);
  }
}
