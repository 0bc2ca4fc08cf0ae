/** Indexes built with PTRHash: the block builder that the whole-index theorems leave open,
    filled in. */
module PtrIndex {
  import opened Basics
  import opened Encoding
  import opened LittleEndian
  import opened Words
  import opened FastRange
  import opened IndexFormat
  import opened IndexWriter
  import opened IndexLookup
  import R = Routing
  import opened BlockBuilding
  import opened BlockFacts
  import opened UnsortedLayout
  import opened UnsortedReader
  import opened UnsortedBlocks
  import opened SortedBuilder
  import BuildModes
  import UnsortedParallel
  import Pipeline
  import SlotPipeline
  import S = PtrSpec
  import opened PtrSolve
  import opened PtrOrder
  import B = PtrBlock
  import D = PtrDecoder
  import P = PtrBuilder

  // What the blocks of one index share.
  datatype Setup = Setup(g: B.Geometry, rngOf: nat -> nat -> nat, maxKeysPerBlock: nat)

  function ToEntry(e: R.Entry, fpSize: nat): S.Entry {
    S.Entry(FromNat(e.k0), FromNat(e.k1), e.payload, R.ExtractFingerprint(e.k0, e.k1, fpSize))
  }

  // The routed entries as the block builder takes them.
  function Taken(es: seq<R.Entry>, fpSize: nat): seq<S.Entry> {
    Map((e: R.Entry) => ToEntry(e, fpSize), es)
  }

  function ErrorOf(e: D.QueryError): IndexError {
    match e
    case NotFound => NotFound
    case CorruptedIndex => CorruptedIndex
  }

  function DecoderOf(g: B.Geometry): Decoder
    requires g.Valid()
  {
    (k0, k1, metadata, n) =>
      match D.QuerySlot(g, FromNat(k0), FromNat(k1), metadata, n)
      case Ok(slot) => Ok(slot)
      case Err(e) => Err(ErrorOf(e))
  }

  // ---------- The one order ----------

  // The last bucket put into the order of the others.
  lemma Inserted(sizes: seq<nat>, o: seq<nat>, k: nat)
    requires |sizes| > 0 && IsOrder(sizes[..|sizes| - 1], o) && k <= |o|
    requires forall i :: 0 <= i < |o| ==> o[i] < |sizes| - 1
    requires forall i :: 0 <= i < k ==> Ahead(sizes, o[i], |sizes| - 1)
    requires k < |o| ==> !Ahead(sizes, o[k], |sizes| - 1)
    ensures IsOrder(sizes, o[..k] + [|sizes| - 1] + o[k..])
  {
    var n := |sizes| - 1;
    var order := o[..k] + [n] + o[k..];
    assert forall i, j :: 0 <= i < j < n ==> Ahead(sizes[..n], o[i], o[j]);
    hide IsOrder;
    assert forall i, j :: 0 <= i < j < n ==> Ahead(sizes, o[i], o[j]);
    forall i, j | 0 <= i < j < |order| ensures Ahead(sizes, order[i], order[j]) {
      assert i < k ==> order[i] == o[i];
      assert i > k ==> order[i] == o[i - 1];
      assert j < k ==> order[j] == o[j];
      assert j > k ==> order[j] == o[j - 1];
      assert i == k && k < |o| ==> Ahead(sizes, n, o[k]);
    }
    OrderIs(sizes, order);
  }

  lemma OrderIs(sizes: seq<nat>, order: seq<nat>)
    requires |order| == |sizes| && forall i :: 0 <= i < |order| ==> order[i] < |sizes|
    requires forall i, j :: 0 <= i < j < |order| ==> Ahead(sizes, order[i], order[j])
    ensures IsOrder(sizes, order)
  {
  }

  lemma {:induction false} OrderExists(sizes: seq<nat>) returns (order: seq<nat>)
    ensures IsOrder(sizes, order)
  {
    order := [];
    if |sizes| > 0 {
      var n := |sizes| - 1;
      var o := OrderExists(sizes[..n]);
      var k := 0;
      while k < n && Ahead(sizes, o[k], n)
        invariant k <= n && forall i :: 0 <= i < k ==> Ahead(sizes, o[i], n)
      {
        k := k + 1;
      }
      Inserted(sizes, o, k);
      order := o[..k] + [n] + o[k..];
    }
  }

  ghost function OrderOf(sizes: seq<nat>): (order: seq<nat>)
    ensures IsOrder(sizes, order)
  {
    OrderFound(sizes);
    var order :| IsOrder(sizes, order);
    order
  }

  lemma OrderFound(sizes: seq<nat>)
    ensures exists order :: IsOrder(sizes, order)
  {
    var order := OrderExists(sizes);
  }

  // ---------- What the builder makes of a block ----------

  ghost function Outcome(s: Setup, entries: seq<S.Entry>): Result<S.State, S.Error> {
    var block := B.BlockOf(s.g, entries);
    P.AttemptsStep(block, OrderOf(Sizes(block)), s.rngOf, 0, P.MAX_GLOBAL_RETRIES);
    P.Attempts(block, OrderOf(Sizes(block)), s.rngOf, 0, P.MAX_GLOBAL_RETRIES)
  }

  // The metadata and entries of a solved block.
  ghost predicate Solves(s: Setup, c: Config, entries: seq<S.Entry>, st: S.State, b: Block)
    requires s.g.Valid()
  {
    && D.Solved(s.g, entries, st) && D.PilotsWritable(s.g, st)
    && b.metadata == D.Metadata(s.g, st, |entries|)
    && b.numKeys == |entries| && |b.payloads| == Offset(|entries|, c.EntrySize())
    && (c.EntrySize() > 0 ==> P.StoresAll(b.payloads, s.g, entries, st, c.fingerprintSize, c.payloadSize))
  }

  /** What building a block yields: the empty block, an error, or a solved block. */
  ghost predicate Yields(s: Setup, c: Config, es: seq<R.Entry>, r: Option<Block>)
    requires s.g.Valid()
  {
    var entries := Taken(es, c.fingerprintSize);
    if |es| == 0 then r == Some(Block(P.EmptyMetadata(s.g), [], 0))
    else if |es| > s.maxKeysPerBlock || s.g.numSlotsOf(|es|) >= 0x1_0000 then r == None
    else match Outcome(s, entries)
      case Err(_) => r == None
      case Ok(st) => r.Some? && Solves(s, c, entries, st, r.value)
  }

  // The blocks `build` makes are the PTRHash builder's.
  ghost predicate Implements(s: Setup, c: Config, build: BlockBuilder) {
    s.g.Valid() && forall es :: Yields(s, c, es, build(es))
  }

  lemma OutcomeSolved(s: Setup, entries: seq<S.Entry>)
    requires s.g.Valid() && |entries| > 0
    ensures Outcome(s, entries).Ok? ==> D.Solved(s.g, entries, Outcome(s, entries).value)
  {
    var block := B.BlockOf(s.g, entries);
    P.AttemptsSolve(s.g, entries, OrderOf(Sizes(block)), s.rngOf, 0, P.MAX_GLOBAL_RETRIES);
    hide D.Solved, P.Attempts, OrderOf, B.BlockOf;
  }

  // A block that was yielded.
  ghost predicate Yielded(s: Setup, c: Config, es: seq<R.Entry>, b: Block) {
    s.g.Valid() && Yields(s, c, es, Some(b))
  }

  lemma YieldedFacts(s: Setup, c: Config, es: seq<R.Entry>, b: Block)
    requires Yielded(s, c, es, b)
    ensures s.g.Valid()
    ensures |es| == 0 ==> b == Block(P.EmptyMetadata(s.g), [], 0)
    ensures var entries := Taken(es, c.fingerprintSize);
            |entries| == |es| && (|es| > 0 ==> Outcome(s, entries).Ok? && Solves(s, c, entries, Outcome(s, entries).value, b))
  {
    hide Solves, Outcome;
  }

  // ---------- The index built of such blocks ----------

  lemma SolvesFacts(s: Setup, c: Config, entries: seq<S.Entry>, st: S.State, b: Block)
    requires s.g.Valid() && Solves(s, c, entries, st, b)
    ensures D.Solved(s.g, entries, st) && D.PilotsWritable(s.g, st)
    ensures b.metadata == D.Metadata(s.g, st, |entries|) && |b.metadata| > 0
    ensures b.numKeys == |entries| && |b.payloads| == Offset(|entries|, c.EntrySize())
    ensures c.EntrySize() > 0 ==> P.StoresAll(b.payloads, s.g, entries, st, c.fingerprintSize, c.payloadSize)
  {
    hide D.Solved, P.StoresAll, D.RemapBytes, D.PilotBytes, Offset;
    MetadataNotEmpty(s, st, |entries|);
  }

  lemma MetadataNotEmpty(s: Setup, st: S.State, n: nat)
    requires D.PilotsWritable(s.g, st)
    ensures |D.Metadata(s.g, st, n)| > 0
  {
    hide D.RemapEntries, D.TableOf;
  }

  // Entry i of a solved block is stored at its rank.
  lemma StoredAt(s: Setup, c: Config, entries: seq<S.Entry>, st: S.State, region: seq<Byte>, i: nat)
    requires s.g.Valid() && D.PilotsWritable(s.g, st) && i < |entries|
    requires D.Ranks(s.g, entries, st)[i] < |entries| && |region| == Offset(|entries|, c.EntrySize())
    requires c.EntrySize() > 0 ==> P.StoresAll(region, s.g, entries, st, c.fingerprintSize, c.payloadSize)
    ensures var slot := D.Ranks(s.g, entries, st)[i];
            && Offset(slot, c.EntrySize()) + c.EntrySize() <= |region|
            && EntryOf(region, slot, c.EntrySize())
               == EntryBytes(entries[i].fingerprint, entries[i].payload, c.fingerprintSize, c.payloadSize)
  {
    var slot := D.Ranks(s.g, entries, st)[i];
    OffsetFits(slot, |entries|, c.EntrySize());
    if c.EntrySize() > 0 {
      assert P.Holds(region, slot, entries[i], c.fingerprintSize, c.payloadSize);
    }
    hide D.Ranks, EntryBytes, Offset, D.PilotsWritable;
  }

  lemma SolvesAt(s: Setup, c: Config, es: seq<R.Entry>, st: S.State, b: Block, i: nat)
    requires s.g.Valid() && Solves(s, c, Taken(es, c.fingerprintSize), st, b) && i < |es|
    ensures D.PilotsWritable(s.g, st) && |Taken(es, c.fingerprintSize)| == |es|
    ensures Slot(DecoderOf(s.g), es, b, i) == Ok(D.Ranks(s.g, Taken(es, c.fingerprintSize), st)[i])
    ensures AnswersAt(c, DecoderOf(s.g), es, b, i)
  {
    hide *;
    var entries := Taken(es, c.fingerprintSize);
    TakenAt(es, c.fingerprintSize, i);
    SolvesFacts(s, c, entries, st, b);
    D.RanksAnswer(s.g, entries, st, i);
    SlotReads(s, es, c.fingerprintSize, st, b, i);
    StoredAt(s, c, entries, st, b.payloads, i);
    AnswersAtIs(c, DecoderOf(s.g), es, b, i, D.Ranks(s.g, entries, st)[i]);
  }

  lemma TakenAt(es: seq<R.Entry>, fpSize: nat, i: nat)
    requires i < |es|
    ensures |Taken(es, fpSize)| == |es| && Taken(es, fpSize)[i].payload == es[i].payload
    ensures Taken(es, fpSize)[i].fingerprint == R.ExtractFingerprint(es[i].k0, es[i].k1, fpSize)
  {
  }

  lemma SlotReads(s: Setup, es: seq<R.Entry>, fpSize: nat, st: S.State, b: Block, i: nat)
    requires s.g.Valid() && D.PilotsWritable(s.g, st) && i < |es| && b.metadata == D.Metadata(s.g, st, |es|)
    ensures D.Answer(s.g, Taken(es, fpSize), st, i).Ok? ==>
              Slot(DecoderOf(s.g), es, b, i) == Ok(D.Answer(s.g, Taken(es, fpSize), st, i).value)
  {
    assert Taken(es, fpSize)[i] == ToEntry(es[i], fpSize);
    hide D.QuerySlot, D.Metadata, R.ExtractFingerprint;
  }

  lemma YieldedAnswers(s: Setup, c: Config, es: seq<R.Entry>, b: Block)
    requires Yielded(s, c, es, b)
    ensures s.g.Valid() && Answers(c, DecoderOf(s.g), es, b)
  {
    hide *;
    YieldedFacts(s, c, es, b);
    var entries := Taken(es, c.fingerprintSize);
    if |es| > 0 {
      var st := Outcome(s, entries).value;
      SolvesFacts(s, c, entries, st, b);
      D.BlockIsPerfectHash(s.g, entries, st);
      forall i | 0 <= i < |es|
        ensures AnswersAt(c, DecoderOf(s.g), es, b, i) && Slot(DecoderOf(s.g), es, b, i) == Ok(D.Ranks(s.g, entries, st)[i])
      {
        SolvesAt(s, c, es, st, b, i);
      }
      NoDupApart(D.Ranks(s.g, entries, st));
    }
    AnswersIf(c, DecoderOf(s.g), es, b);
  }

  // ---------- Equal blocks from equal keys ----------

  // The same key and the same bytes stored with it.
  ghost predicate Alike(a: S.Entry, b: S.Entry, fpSize: nat, payloadSize: nat) {
    && a.k0 == b.k0 && a.suffix == b.suffix
    && EntryBytes(a.fingerprint, a.payload, fpSize, payloadSize) == EntryBytes(b.fingerprint, b.payload, fpSize, payloadSize)
  }

  ghost predicate HasAlike(t: seq<S.Entry>, e: S.Entry, fpSize: nat, payloadSize: nat) {
    exists j :: 0 <= j < |t| && Alike(e, t[j], fpSize, payloadSize)
  }

  // Blocks that nothing built or stored can tell apart.
  ghost predicate Kin(s: Setup, c: Config, a: seq<S.Entry>, b: seq<S.Entry>) {
    && |a| == |b| && SameKeys(B.BlockOf(s.g, a), B.BlockOf(s.g, b))
    && forall i :: 0 <= i < |a| ==> HasAlike(b, a[i], c.fingerprintSize, c.payloadSize)
  }

  lemma KinSolve(s: Setup, c: Config, a: seq<S.Entry>, b: seq<S.Entry>)
    requires Kin(s, c, a, b)
    ensures Outcome(s, a) == Outcome(s, b)
  {
    var blockA, blockB := B.BlockOf(s.g, a), B.BlockOf(s.g, b);
    P.AttemptsAgree(blockA, blockB, OrderOf(Sizes(blockA)), OrderOf(Sizes(blockB)), s.rngOf, 0, P.MAX_GLOBAL_RETRIES);
    hide B.BlockOf, SameKeys, P.Attempts, HasAlike;
  }

  lemma RankOfWords(g: B.Geometry, a: seq<S.Entry>, b: seq<S.Entry>, st: S.State, i: nat, j: nat)
    requires D.Solved(g, a, st) && D.Solved(g, b, st) && |a| == |b| && i < |a| && j < |b|
    requires a[i].k0 == b[j].k0 && a[i].suffix == b[j].suffix
    ensures g.Valid() && D.PilotsWritable(g, st) && D.Ranks(g, a, st)[i] == D.Ranks(g, b, st)[j]
  {
    D.RanksAnswer(g, a, st, i);
    D.RanksAnswer(g, b, st, j);
    hide D.Solved, D.Ranks, D.QuerySlot, D.Metadata;
  }

  lemma RegionsAgree(s: Setup, c: Config, a: seq<S.Entry>, b: seq<S.Entry>, st: S.State, regionA: seq<Byte>, regionB: seq<Byte>)
    requires Kin(s, c, a, b) && D.Solved(s.g, a, st) && D.Solved(s.g, b, st)
    requires s.g.Valid() && D.PilotsWritable(s.g, st)
    requires |regionA| == |regionB| == Offset(|a|, c.EntrySize())
    requires c.EntrySize() > 0 ==> P.StoresAll(regionA, s.g, a, st, c.fingerprintSize, c.payloadSize)
    requires c.EntrySize() > 0 ==> P.StoresAll(regionB, s.g, b, st, c.fingerprintSize, c.payloadSize)
    ensures regionA == regionB
  {
    hide *;
    KinLength(s, c, a, b);
    forall r | 0 <= r < |a| ensures SameEntry(regionA, regionB, r, c.EntrySize()) {
      var i := P.RankTaken(s.g, a, st, r);
      KinAt(s, c, a, b, i);
      var j := AlikeAt(b, a[i], c);
      RankOfWords(s.g, a, b, st, i, j);
      StoredAt(s, c, a, st, regionA, i);
      StoredAt(s, c, b, st, regionB, j);
      SameEntryIf(regionA, regionB, r, c.EntrySize());
    }
    RegionDetermined(regionA, regionB, |a|, c.EntrySize());
    assert regionA[..Offset(|a|, c.EntrySize())] == regionA && regionB[..Offset(|a|, c.EntrySize())] == regionB;
  }

  lemma KinAt(s: Setup, c: Config, a: seq<S.Entry>, b: seq<S.Entry>, i: nat)
    requires Kin(s, c, a, b) && i < |a|
    ensures HasAlike(b, a[i], c.fingerprintSize, c.payloadSize)
  {
    hide HasAlike, SameKeys;
  }

  lemma AlikeAt(t: seq<S.Entry>, e: S.Entry, c: Config) returns (j: nat)
    requires HasAlike(t, e, c.fingerprintSize, c.payloadSize)
    ensures j < |t| && e.k0 == t[j].k0 && e.suffix == t[j].suffix
    ensures EntryBytes(e.fingerprint, e.payload, c.fingerprintSize, c.payloadSize)
         == EntryBytes(t[j].fingerprint, t[j].payload, c.fingerprintSize, c.payloadSize)
  {
    j :| 0 <= j < |t| && Alike(e, t[j], c.fingerprintSize, c.payloadSize);
    hide EntryBytes;
  }

  lemma YieldedAgree(s: Setup, c: Config, es: seq<R.Entry>, es': seq<R.Entry>, b: Block, b': Block)
    requires Yielded(s, c, es, b) && Yielded(s, c, es', b')
    requires Kin(s, c, Taken(es, c.fingerprintSize), Taken(es', c.fingerprintSize))
    ensures b == b'
  {
    hide *;
    var entries, entries' := Taken(es, c.fingerprintSize), Taken(es', c.fingerprintSize);
    YieldedFacts(s, c, es, b);
    YieldedFacts(s, c, es', b');
    KinLength(s, c, entries, entries');
    if |es| > 0 {
      KinSolve(s, c, entries, entries');
      var st := Outcome(s, entries).value;
      SolvesFacts(s, c, entries, st, b);
      SolvesFacts(s, c, entries', st, b');
      RegionsAgree(s, c, entries, entries', st, b.payloads, b'.payloads);
    }
  }

  lemma KinLength(s: Setup, c: Config, a: seq<S.Entry>, b: seq<S.Entry>)
    requires Kin(s, c, a, b)
    ensures |a| == |b|
  {
  }

  // Whether a block can be built does not depend on more than its keys either.
  lemma YieldsAgree(s: Setup, c: Config, es: seq<R.Entry>, es': seq<R.Entry>, r: Option<Block>, r': Option<Block>)
    requires s.g.Valid() && Yields(s, c, es, r) && Yields(s, c, es', r')
    requires Kin(s, c, Taken(es, c.fingerprintSize), Taken(es', c.fingerprintSize))
    ensures r == r'
  {
    hide Kin, Outcome, Solves, Taken, P.EmptyMetadata, B.Geometry.Valid;
    KinSolve(s, c, Taken(es, c.fingerprintSize), Taken(es', c.fingerprintSize));
    KinLength(s, c, Taken(es, c.fingerprintSize), Taken(es', c.fingerprintSize));
    TakenLength(es, c.fingerprintSize);
    TakenLength(es', c.fingerprintSize);
    if r.Some? && r'.Some? {
      YieldedAgree(s, c, es, es', r.value, r'.value);
    }
  }

  lemma TakenLength(es: seq<R.Entry>, fpSize: nat)
    ensures |Taken(es, fpSize)| == |es|
  {
  }

  lemma KinPerm(s: Setup, c: Config, a: seq<R.Entry>, b: seq<R.Entry>)
    requires multiset(a) == multiset(b)
    ensures Kin(s, c, Taken(a, c.fingerprintSize), Taken(b, c.fingerprintSize))
  {
    var entries, entries' := Taken(a, c.fingerprintSize), Taken(b, c.fingerprintSize);
    var f := (e: R.Entry) => ToEntry(e, c.fingerprintSize);
    MapPerm(f, a, b);
    assert entries == Map(f, a) && entries' == Map(f, b);
    PermLength(a, b);
    B.SameKeysFromPerm(s.g, entries, entries');
    hide ToEntry, SameKeys, B.BlockOf, EntryBytes;
    forall i | 0 <= i < |entries| ensures HasAlike(entries', entries[i], c.fingerprintSize, c.payloadSize) {
      SameMembers(entries, entries', entries[i]);
      var j :| 0 <= j < |entries'| && entries'[j] == entries[i];
      assert Alike(entries[i], entries'[j], c.fingerprintSize, c.payloadSize);
    }
  }

  lemma {:induction false} InputsByWords(g: B.Geometry, a: seq<S.Entry>, b: seq<S.Entry>, bucket: nat)
    requires |a| == |b| && forall i :: 0 <= i < |a| ==> a[i].k0 == b[i].k0 && a[i].suffix == b[i].suffix
    ensures S.InputsOf(B.Filter(g, a, bucket)) == S.InputsOf(B.Filter(g, b, bucket))
  {
    if |a| > 0 {
      var n := |a| - 1;
      InputsByWords(g, a[..n], b[..n], bucket);
      InputsAppend(B.Filter(g, a[..n], bucket), a[n]);
      InputsAppend(B.Filter(g, b[..n], bucket), b[n]);
      hide S.InputsOf, S.SlotInput;
      assert B.Filter(g, a[..n], bucket) + [] == B.Filter(g, a[..n], bucket);
      assert B.Filter(g, b[..n], bucket) + [] == B.Filter(g, b[..n], bucket);
    }
  }

  lemma InputsAppend(s: seq<S.Entry>, e: S.Entry)
    ensures S.InputsOf(s + [e]) == S.InputsOf(s) + [S.SlotInput(e.k0, e.suffix)]
  {
    hide S.SlotInput;
  }

  lemma KinTrim(s: Setup, c: Config, l: Layout, es: seq<R.Entry>)
    requires l.payloadSize == c.payloadSize
    ensures Kin(s, c, Taken(TrimAll(l, es), c.fingerprintSize), Taken(es, c.fingerprintSize))
  {
    var a, b := Taken(TrimAll(l, es), c.fingerprintSize), Taken(es, c.fingerprintSize);
    forall i | 0 <= i < |a| ensures Alike(a[i], b[i], c.fingerprintSize, c.payloadSize) {
      hide R.ExtractFingerprint;
    }
    hide Taken, TrimAll, EntryBytes;
    forall bucket | 0 <= bucket < s.g.numBuckets
      ensures multiset(S.InputsOf(B.Buckets(s.g, a)[bucket])) == multiset(S.InputsOf(B.Buckets(s.g, b)[bucket]))
    {
      InputsByWords(s.g, a, b, bucket);
    }
    assert SameKeys(B.BlockOf(s.g, a), B.BlockOf(s.g, b));
  }

  // ---------- What the whole-index theorems ask ----------

  lemma YieldedBuilds(s: Setup, c: Config, es: seq<R.Entry>, b: Block)
    requires Yielded(s, c, es, b)
    ensures b.numKeys == |es| && |b.payloads| == Offset(|es|, c.EntrySize())
  {
    hide *;
    YieldedFacts(s, c, es, b);
    if |es| > 0 {
      SolvesFacts(s, c, Taken(es, c.fingerprintSize), Outcome(s, Taken(es, c.fingerprintSize)).value, b);
    } else {
      NoKeys(c.EntrySize());
    }
  }

  // On a solved block any key's slot is in range.
  lemma SolvedInRange(s: Setup, c: Config, entries: seq<S.Entry>, st: S.State, b: Block, k0: UInt64, k1: UInt64)
    requires s.g.Valid() && Solves(s, c, entries, st, b)
    ensures DecoderOf(s.g)(k0, k1, b.metadata, b.numKeys).Ok? ==> DecoderOf(s.g)(k0, k1, b.metadata, b.numKeys).value < b.numKeys
  {
    SolvesFacts(s, c, entries, st, b);
    DecoderIs(s.g, k0, k1, b.metadata, b.numKeys);
    var word0, word1 := FromNat(k0), FromNat(k1);
    hide *;
    D.QueryIsFinalSlot(s.g, entries, st, word0, word1);
  }

  lemma NoKeysAnswer(g: B.Geometry, k0: UInt64, k1: UInt64, metadata: seq<Byte>)
    requires g.Valid()
    ensures DecoderOf(g)(k0, k1, metadata, 0) == Err(NotFound)
  {
  }

  lemma YieldedInRange(s: Setup, c: Config, es: seq<R.Entry>, b: Block)
    requires Yielded(s, c, es, b)
    ensures s.g.Valid() && StaysInRange(DecoderOf(s.g), b)
  {
    hide *;
    YieldedFacts(s, c, es, b);
    YieldedBuilds(s, c, es, b);
    var entries := Taken(es, c.fingerprintSize);
    forall k0: UInt64, k1: UInt64
      ensures DecoderOf(s.g)(k0, k1, b.metadata, b.numKeys).Ok? ==> DecoderOf(s.g)(k0, k1, b.metadata, b.numKeys).value < b.numKeys
    {
      if |es| > 0 {
        SolvedInRange(s, c, entries, Outcome(s, entries).value, b, k0, k1);
      } else {
        NoKeysAnswer(s.g, k0, k1, b.metadata);
      }
    }
    InRangeIf(DecoderOf(s.g), b);
  }

  lemma DecoderIs(g: B.Geometry, k0: UInt64, k1: UInt64, metadata: seq<Byte>, n: nat)
    requires g.Valid()
    ensures var r := D.QuerySlot(g, FromNat(k0), FromNat(k1), metadata, n);
            && DecoderOf(g)(k0, k1, metadata, n).Ok? == r.Ok?
            && (r.Ok? ==> DecoderOf(g)(k0, k1, metadata, n) == Ok(r.value))
  {
    hide D.QuerySlot;
  }

  // The blocks `build` makes are the PTRHash builder's.
  lemma BuildYields(s: Setup, c: Config, build: BlockBuilder, es: seq<R.Entry>)
    requires Implements(s, c, build)
    ensures s.g.Valid() && Yields(s, c, es, build(es))
    ensures build(es).Some? ==> Yielded(s, c, es, build(es).value)
  {
    hide Yields;
  }

  lemma NoKeysBuild(s: Setup, c: Config, r: Option<Block>)
    requires s.g.Valid() && Yields(s, c, [], r)
    ensures r.Some?
  {
  }

  /** Blocks built by PTRHash meet everything the whole-index theorems ask of an algorithm:
      they answer their own keys, depend on neither the order of the keys nor a payload there
      is no field for, and answer any key at all within range. */
  lemma MeetsAll(s: Setup, c: Config, build: BlockBuilder)
    requires Implements(s, c, build)
    ensures s.g.Valid() && Builds(c, build) && BuildModes.Correct(c, DecoderOf(s.g), build)
    ensures BuildModes.OrderFree(build) && BuildModes.InRange(DecoderOf(s.g), build)
  {
    BuildYields(s, c, build, []);
    NoKeysBuild(s, c, build([]));
    forall es | build(es).Some?
      ensures build(es).value.numKeys == |es| && |build(es).value.payloads| == Offset(|es|, c.EntrySize())
      ensures Answers(c, DecoderOf(s.g), es, build(es).value) && StaysInRange(DecoderOf(s.g), build(es).value)
    {
      hide *;
      BuildYields(s, c, build, es);
      YieldedBuilds(s, c, es, build(es).value);
      YieldedAnswers(s, c, es, build(es).value);
      YieldedInRange(s, c, es, build(es).value);
    }
    forall a, b | multiset(a) == multiset(b) ensures build(a) == build(b) {
      hide *;
      BuildYields(s, c, build, a);
      BuildYields(s, c, build, b);
      KinPerm(s, c, a, b);
      YieldsAgree(s, c, a, b, build(a), build(b));
    }
    hide Implements, Answers, StaysInRange, DecoderOf, Offset;
  }

  lemma MeetsPayloadFree(s: Setup, c: Config, l: Layout, build: BlockBuilder)
    requires Implements(s, c, build) && l.payloadSize == c.payloadSize
    ensures BuildModes.PayloadFree(l, build)
  {
    forall es ensures build(TrimAll(l, es)) == build(es) {
      hide *;
      BuildYields(s, c, build, TrimAll(l, es));
      BuildYields(s, c, build, es);
      KinTrim(s, c, l, es);
      YieldsAgree(s, c, TrimAll(l, es), es, build(TrimAll(l, es)), build(es));
    }
    hide Implements, TrimAll;
  }

  // ---------- A worker builds a block ----------

  /** A worker's turn: the builder is reset, filled and run, and yields the block. */
  method BuildBlock(builder: P.Builder, c: Config, es: seq<R.Entry>, metadataBuf: array<Byte>) returns (r: Option<Block>)
    requires builder.Valid() && builder.fingerprintSize == c.fingerprintSize && builder.payloadSize == c.payloadSize
    requires P.EstimateMetadataSize(builder.g, |es|) <= metadataBuf.Length
    modifies builder, builder.solver, builder.solver.heap, metadataBuf
    ensures builder.Valid() && builder.g.Valid()
    ensures Yields(Setup(builder.g, builder.rngOf, builder.maxKeysPerBlock), c, es, r)
  {
    var fpSize := c.fingerprintSize;
    builder.Reset();
    hide Taken, R.ExtractFingerprint, P.Builder.Valid, P.EstimateMetadataSize, Yields;
    NothingTaken(fpSize);
    assert es[..0] == [];
    for i := 0 to |es|
      invariant builder.Valid() && builder.added == Taken(es[..i], fpSize)
    {
      var e := es[i];
      FingerprintFits(e.k0, e.k1, fpSize);
      TakenAppend(es, i, fpSize);
      builder.AddKey(FromNat(e.k0), FromNat(e.k1), e.payload, R.ExtractFingerprint(e.k0, e.k1, fpSize));
    }
    assert es[..|es|] == es;
    r := Run(builder, c, es, metadataBuf);
  }

  // Runs a filled builder.
  method Run(builder: P.Builder, c: Config, es: seq<R.Entry>, metadataBuf: array<Byte>) returns (r: Option<Block>)
    requires builder.Valid() && builder.fingerprintSize == c.fingerprintSize && builder.payloadSize == c.payloadSize
    requires P.EstimateMetadataSize(builder.g, |es|) <= metadataBuf.Length && builder.added == Taken(es, c.fingerprintSize)
    modifies builder, builder.solver, builder.solver.heap, metadataBuf
    ensures builder.Valid() && builder.g.Valid()
    ensures Yields(Setup(builder.g, builder.rngOf, builder.maxKeysPerBlock), c, es, r)
  {
    hide *;
    builder.ValidIs();
    TakenLength(es, c.fingerprintSize);
    ghost var s := Setup(builder.g, builder.rngOf, builder.maxKeysPerBlock);
    var payloadsBuf := new Byte[Offset(|es|, c.payloadSize + c.fingerprintSize)](_ => 0);
    var built := builder.BuildSeparatedInto(metadataBuf, payloadsBuf);
    if 0 < |es| <= s.maxKeysPerBlock && s.g.numSlotsOf(|es|) < 0x1_0000 { OutcomeAgrees(s, builder); }
    if built.Err? {
      FailedYields(s, c, es);
      return None;
    }
    if |es| > 0 {
      WrittenSolves(builder, c, Outcome(s, builder.added).value, built.value, metadataBuf[..], payloadsBuf[..]);
      SolvedYields(s, c, es, Block(metadataBuf[..][..built.value.metadataLen], payloadsBuf[..][..built.value.payloadsLen], built.value.numKeys));
    } else {
      EmptyYields(s, c, es);
    }
    return Some(Block(metadataBuf[..][..built.value.metadataLen], payloadsBuf[..][..built.value.payloadsLen], built.value.numKeys));
  }

  // The builder's own order is the one order there is.
  lemma OutcomeAgrees(s: Setup, builder: P.Builder)
    requires s.g == builder.g && s.rngOf == builder.rngOf
    requires IsOrder(Sizes(builder.TheBlock()), builder.solver.bucketOrder)
    ensures builder.Outcome() == Outcome(s, builder.added)
  {
    OrderUnique(Sizes(builder.TheBlock()), builder.solver.bucketOrder, OrderOf(Sizes(builder.TheBlock())), |builder.solver.bucketOrder|);
    assert builder.solver.bucketOrder == OrderOf(Sizes(builder.TheBlock()));
    hide P.Attempts, OrderOf, IsOrder;
  }

  lemma EmptyYields(s: Setup, c: Config, es: seq<R.Entry>)
    requires s.g.Valid() && |es| == 0
    ensures Yields(s, c, es, Some(Block(P.EmptyMetadata(s.g), [], 0)))
  {
  }

  lemma FailedYields(s: Setup, c: Config, es: seq<R.Entry>)
    requires s.g.Valid() && |es| > 0
    requires |es| > s.maxKeysPerBlock || s.g.numSlotsOf(|es|) >= 0x1_0000 || Outcome(s, Taken(es, c.fingerprintSize)).Err?
    ensures Yields(s, c, es, None)
  {
    hide Outcome, Taken;
  }

  lemma SolvedYields(s: Setup, c: Config, es: seq<R.Entry>, b: Block)
    requires s.g.Valid() && 0 < |es| <= s.maxKeysPerBlock && s.g.numSlotsOf(|es|) < 0x1_0000
    requires var o := Outcome(s, Taken(es, c.fingerprintSize)); o.Ok? && Solves(s, c, Taken(es, c.fingerprintSize), o.value, b)
    ensures Yields(s, c, es, Some(b))
  {
    hide Outcome, Taken, Solves;
  }

  lemma WrittenSolves(builder: P.Builder, c: Config, st: S.State, built: P.Built, metadata: seq<Byte>, payloads: seq<Byte>)
    requires builder.g.Valid() && builder.Written(st, built, metadata, payloads)
    requires builder.fingerprintSize == c.fingerprintSize && builder.payloadSize == c.payloadSize
    requires |payloads| == Offset(|builder.added|, c.payloadSize + c.fingerprintSize)
    ensures built.metadataLen <= |metadata| && built.payloadsLen <= |payloads|
    ensures Solves(Setup(builder.g, builder.rngOf, builder.maxKeysPerBlock), c, builder.added, st,
                   Block(metadata[..built.metadataLen], payloads[..built.payloadsLen], built.numKeys))
  {
    hide *;
    assert payloads[..|payloads|] == payloads;
    WrittenFacts(builder, st, built, metadata, payloads);
    SizesCommute(c);
    SolvesIf(Setup(builder.g, builder.rngOf, builder.maxKeysPerBlock), c, builder.added, st,
             Block(metadata[..built.metadataLen], payloads[..built.payloadsLen], built.numKeys));
  }

  lemma WrittenFacts(builder: P.Builder, st: S.State, built: P.Built, metadata: seq<Byte>, payloads: seq<Byte>)
    requires builder.g.Valid() && builder.Written(st, built, metadata, payloads)
    ensures var g, entries, size := builder.g, builder.added, builder.fingerprintSize + builder.payloadSize;
            && D.Solved(g, entries, st) && D.PilotsWritable(g, st)
            && built.payloadsLen == Offset(|entries|, size) && built.numKeys == |entries|
            && built.metadataLen <= |metadata| && metadata[..built.metadataLen] == D.Metadata(g, st, |entries|)
            && (size > 0 ==> P.StoresAll(payloads, g, entries, st, builder.fingerprintSize, builder.payloadSize))
  {
    hide D.Solved, P.StoresAll, D.Metadata, Offset;
  }

  lemma SolvesIf(s: Setup, c: Config, entries: seq<S.Entry>, st: S.State, b: Block)
    requires s.g.Valid() && D.Solved(s.g, entries, st) && D.PilotsWritable(s.g, st)
    requires b.metadata == D.Metadata(s.g, st, |entries|)
    requires b.numKeys == |entries| && |b.payloads| == Offset(|entries|, c.EntrySize())
    requires c.EntrySize() > 0 ==> P.StoresAll(b.payloads, s.g, entries, st, c.fingerprintSize, c.payloadSize)
    ensures Solves(s, c, entries, st, b)
  {
    hide D.Solved, P.StoresAll, D.Metadata, Offset;
  }

  lemma NothingTaken(fpSize: nat)
    ensures Taken([], fpSize) == []
  {
  }

  lemma TakenAppend(es: seq<R.Entry>, i: nat, fpSize: nat)
    requires i < |es|
    ensures Taken(es[..i + 1], fpSize) == Taken(es[..i], fpSize) + [ToEntry(es[i], fpSize)]
  {
    hide R.ExtractFingerprint;
  }

  // ---------- PTRHash indexes ----------

  // ---------- There is such an implementation ----------

  lemma RanksFit(g: B.Geometry, entries: seq<S.Entry>, st: S.State)
    requires D.Solved(g, entries, st)
    ensures g.Valid() && D.PilotsWritable(g, st)
    ensures NoDup(D.Ranks(g, entries, st)) && forall i :: 0 <= i < |entries| ==> D.Ranks(g, entries, st)[i] < |entries|
  {
    D.BlockIsPerfectHash(g, entries, st);
    hide D.Solved, D.PilotsWritable, D.Answer, D.Ranks, B.Geometry.Valid;
    forall i | 0 <= i < |entries| ensures D.Ranks(g, entries, st)[i] < |entries| {
      assert D.Ranks(g, entries, st)[i] in Range(|entries|);
    }
  }

  function Contents(c: Config, entries: seq<S.Entry>): (r: seq<seq<Byte>>)
    ensures |r| == |entries| && forall i :: 0 <= i < |r| ==> |r[i]| == c.EntrySize()
  {
    seq(|entries|, i requires 0 <= i < |entries| =>
      EntryBytes(entries[i].fingerprint, entries[i].payload, c.fingerprintSize, c.payloadSize))
  }

  lemma HoldsContents(c: Config, entries: seq<S.Entry>, region: seq<Byte>, slot: nat, i: nat)
    requires i < |entries| && Offset(slot, c.EntrySize()) + c.EntrySize() <= |region|
    requires EntryOf(region, slot, c.EntrySize()) == Contents(c, entries)[i]
    ensures P.Holds(region, slot, entries[i], c.fingerprintSize, c.payloadSize)
  {
    SizesCommute(c);
    hide EntryOf, EntryBytes, Offset;
  }

  lemma StoresExist(s: Setup, c: Config, entries: seq<S.Entry>, st: S.State) returns (payloads: seq<Byte>)
    requires s.g.Valid() && D.Solved(s.g, entries, st)
    ensures D.PilotsWritable(s.g, st) && |payloads| == Offset(|entries|, c.EntrySize())
    ensures P.StoresAll(payloads, s.g, entries, st, c.fingerprintSize, c.payloadSize)
  {
    hide *;
    RanksFit(s.g, entries, st);
    var ranks := D.Ranks(s.g, entries, st);
    payloads := RegionExists(ranks, Contents(c, entries), |entries|, c.EntrySize(), |entries|);
    forall i | 0 <= i < |entries| ensures P.Holds(payloads, ranks[i], entries[i], c.fingerprintSize, c.payloadSize) {
      HoldsContents(c, entries, payloads, ranks[i], i);
    }
    HoldAll(s.g, c, entries, st, payloads);
  }

  lemma HoldAll(g: B.Geometry, c: Config, entries: seq<S.Entry>, st: S.State, region: seq<Byte>)
    requires g.Valid() && D.PilotsWritable(g, st)
    requires forall i :: 0 <= i < |entries| ==> P.Holds(region, D.Ranks(g, entries, st)[i], entries[i], c.fingerprintSize, c.payloadSize)
    ensures P.StoresAll(region, g, entries, st, c.fingerprintSize, c.payloadSize)
  {
    hide P.Holds, D.Ranks, D.PilotsWritable, B.Geometry.Valid;
  }

  lemma SomethingYielded(s: Setup, c: Config, es: seq<R.Entry>)
    requires s.g.Valid()
    ensures exists r :: Yields(s, c, es, r)
  {
    hide *;
    var entries := Taken(es, c.fingerprintSize);
    TakenLength(es, c.fingerprintSize);
    if |es| == 0 {
      EmptyYields(s, c, es);
    } else if |es| > s.maxKeysPerBlock || s.g.numSlotsOf(|es|) >= 0x1_0000 || Outcome(s, entries).Err? {
      FailedYields(s, c, es);
    } else {
      OutcomeSolved(s, entries);
      var st := Outcome(s, entries).value;
      var payloads := StoresExist(s, c, entries, st);
      var b := Block(D.Metadata(s.g, st, |entries|), payloads, |entries|);
      assert Solves(s, c, entries, st, b) by { SolvesIf(s, c, entries, st, b); }
      SolvedYields(s, c, es, b);
    }
  }

  ghost function Yield(s: Setup, c: Config, es: seq<R.Entry>): (r: Option<Block>)
    requires s.g.Valid()
    ensures Yields(s, c, es, r)
  {
    SomethingYielded(s, c, es);
    var r :| Yields(s, c, es, r);
    r
  }

  /** Such blocks can be made of any entries: the hypothesis of the theorems about the index can be
      met for every setup, and in one way only. */
  lemma ImplementedOnce(s: Setup, c: Config) returns (build: BlockBuilder)
    requires s.g.Valid()
    ensures Implements(s, c, build)
    ensures forall other :: Implements(s, c, other) ==> forall es :: other(es) == build(es)
  {
    build := (es: seq<R.Entry>) => if s.g.Valid() then Yield(s, c, es) else None;
    hide Yields;
    forall other, es | Implements(s, c, other) ensures other(es) == build(es) {
      hide *;
      BuildYields(s, c, other, es);
      BuildYields(s, c, build, es);
      KinPerm(s, c, es, es);
      YieldsAgree(s, c, es, es, other(es), build(es));
    }
  }

  lemma Succeeds(s: Setup, c: Config, build: BlockBuilder, added: seq<R.Entry>)
    requires Implements(s, c, build) && BuildModes.Buildable(c, build, added)
    ensures s.g.Valid() && BuildModes.Success(c, build, added)
    ensures BuildModes.Correct(c, DecoderOf(s.g), build) && BuildModes.InRange(DecoderOf(s.g), build)
  {
    MeetsAll(s, c, build);
    hide Implements, Builds, BuildModes.Buildable, BuildModes.Correct, BuildModes.InRange;
  }

  /** In a finished PTRHash index every key added is answered its rank and its own payload. */
  lemma EveryKeyIsFound(s: Setup, c: Config, h: HashFn, build: BlockBuilder, added: seq<R.Entry>, i: nat, key: seq<Byte>)
    requires Implements(s, c, build) && BuildModes.Buildable(c, build, added)
    requires i < |added| && added[i].payload < Pow256(c.payloadSize)
    requires |key| >= 16 && R.Word(key[0..8]) == added[i].k0 && R.Word(key[8..16]) == added[i].k1
    ensures s.g.Valid() && BuildModes.Success(c, build, added) && BuildModes.Finished(c, h, build, added).Valid()
    ensures QueryPayload(BuildModes.Finished(c, h, build, added), DecoderOf(s.g), key)
         == Ok((BuildModes.RankOf(c, DecoderOf(s.g), build, added, i), added[i].payload))
  {
    Succeeds(s, c, build, added);
    hide Implements, BuildModes.Correct, BuildModes.InRange, BuildModes.Finished, BuildModes.RankOf, QueryPayload;
    BuildModes.EveryKeyIsFound(c, h, DecoderOf(s.g), build, added, i, key);
  }

  /** The ranks of its N keys are 0 .. N - 1, each once, and keys never added are answered below
      N, too, or an error. */
  lemma RanksAreAll(s: Setup, c: Config, h: HashFn, build: BlockBuilder, added: seq<R.Entry>, k0: UInt64, k1: UInt64, check: bool)
    requires Implements(s, c, build) && BuildModes.Buildable(c, build, added)
    ensures s.g.Valid() && BuildModes.Success(c, build, added) && BuildModes.Finished(c, h, build, added).Valid()
    ensures NoDup(BuildModes.Ranks(c, DecoderOf(s.g), build, added))
    ensures (set r | r in BuildModes.Ranks(c, DecoderOf(s.g), build, added)) == Range(|added|)
    ensures var r := Lookup(BuildModes.Finished(c, h, build, added), DecoderOf(s.g), k0, k1, check); r.Ok? ==> r.value < |added|
  {
    Succeeds(s, c, build, added);
    hide Implements, BuildModes.Correct, BuildModes.InRange, BuildModes.Finished, BuildModes.Ranks, Lookup;
    BuildModes.RanksAreAll(c, DecoderOf(s.g), build, added);
    BuildModes.AnyKeyStaysInRange(c, h, DecoderOf(s.g), build, added, k0, k1, check);
  }

  /** The unsorted build makes the blocks of the sorted one, whatever the order and the writers. */
  lemma UnsortedIsSorted(s: Setup, c: Config, l: Layout, build: BlockBuilder, writers: seq<seq<R.Entry>>, added: seq<R.Entry>,
                         blocks: seq<seq<R.Entry>>)
    requires Implements(s, c, build) && l.payloadSize == c.payloadSize && |blocks| == l.numBlocks
    requires multiset(Concat(writers)) == multiset(added)
    requires forall b :: 0 <= b < |blocks| ==> blocks[b] == BlockEntries(l, writers, b) || TrimAll(l, blocks[b]) == BlockEntries(l, writers, b)
    ensures AllBuild(build, blocks) <==> AllBuild(build, BlocksOf(l.numBlocks, added, l.numBlocks))
    ensures AllBuild(build, blocks) ==> Built(build, blocks) == Built(build, BlocksOf(l.numBlocks, added, l.numBlocks))
  {
    MeetsAll(s, c, build);
    MeetsPayloadFree(s, c, l, build);
    hide Implements, BuildModes.Correct, BuildModes.InRange, BuildModes.OrderFree, BuildModes.PayloadFree, TrimAll, BlockEntries;
    BuildModes.UnsortedIsSorted(l, build, writers, added, blocks);
  }

  /** However the keys were spread over unsorted writers and whatever the interleaving, a parallel
      finish without an error publishes the file of the serial PTRHash build of the sorted keys. */
  lemma ParallelUnsortedIsSerial(s: Setup, l: Layout, j: Pipeline.Job, writers: seq<seq<R.Entry>>, added: seq<R.Entry>, file: seq<Byte>,
                                 steps: seq<SlotPipeline.Step>, t: SlotPipeline.State)
    requires Implements(s, j.c, j.build) && l.Valid() && l.payloadSize == j.c.payloadSize
    requires SlotPipeline.Counted(j) && |j.blocks| == l.numBlocks == j.c.numBlocks && j.workers > 1
    requires forall b :: 0 <= b < |j.blocks| ==> j.blocks[b] == BlockEntries(l, writers, b)
    requires multiset(Concat(writers)) == multiset(added)
    requires SlotPipeline.Reaches(UnsortedParallel.PlanOf(l, j.blocks, j.workers), j, file, steps, t) && t.slots.main.result == Some(true)
    ensures j.c.Valid() && AllBuild(j.build, BlocksOf(j.c.numBlocks, added, j.c.numBlocks))
    ensures t.pipe.main.published == IndexBytes(j.c, j.h, Built(j.build, BlocksOf(j.c.numBlocks, added, j.c.numBlocks)))
  {
    MeetsAll(s, j.c, j.build);
    MeetsPayloadFree(s, j.c, l, j.build);
    hide Implements, Builds, BuildModes.Correct, BuildModes.InRange, BuildModes.OrderFree, BuildModes.PayloadFree, BlockEntries, IndexBytes,
      SlotPipeline.Reaches, SlotPipeline.Counted;
    UnsortedParallel.ParallelIsSerial(l, j, writers, added, file, steps, t);
  }
}
