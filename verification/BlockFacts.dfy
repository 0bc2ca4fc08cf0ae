/** What both algorithms' blocks have in common. */
module BlockFacts {
  import opened Basics
  import opened LittleEndian
  import opened Words
  import opened Encoding
  import opened IndexFormat
  import opened IndexWriter
  import opened IndexLookup
  import R = Routing

  lemma AnswersAtIs(c: Config, dec: Decoder, es: seq<R.Entry>, b: Block, i: nat, slot: nat)
    requires i < |es| && Slot(dec, es, b, i) == Ok(slot) && slot < |es|
    requires Offset(slot, c.EntrySize()) + c.EntrySize() <= |b.payloads|
    requires EntryOf(b.payloads, slot, c.EntrySize())
       == EntryBytes(R.ExtractFingerprint(es[i].k0, es[i].k1, c.fingerprintSize), es[i].payload, c.fingerprintSize, c.payloadSize)
    ensures AnswersAt(c, dec, es, b, i)
  {
    hide Slot, EntryOf, EntryBytes, Offset, R.ExtractFingerprint;
  }

  lemma AnswersIf(c: Config, dec: Decoder, es: seq<R.Entry>, b: Block)
    requires b.numKeys == |es| && (|es| > 0 ==> |b.metadata| > 0)
    requires forall i :: 0 <= i < |es| ==> AnswersAt(c, dec, es, b, i)
    requires forall i, j :: 0 <= i < j < |es| ==> Slot(dec, es, b, i) != Slot(dec, es, b, j)
    ensures Answers(c, dec, es, b)
  {
    hide AnswersAt, Slot;
  }

  lemma NoDupApart(s: seq<nat>)
    requires NoDup(s)
    ensures forall i, j :: 0 <= i < j < |s| ==> s[i] != s[j]
  {
  }

  lemma SameEntryIf(a: seq<Byte>, b: seq<Byte>, slot: nat, size: nat)
    requires Offset(slot, size) + size <= |a| && Offset(slot, size) + size <= |b| && EntryOf(a, slot, size) == EntryOf(b, slot, size)
    ensures SameEntry(a, b, slot, size)
  {
    hide Offset;
  }

  lemma NoKeys(size: nat)
    ensures Offset(0, size) == 0
  {
  }

  lemma FingerprintFits(k0: UInt64, k1: UInt64, fpSize: nat)
    ensures R.ExtractFingerprint(k0, k1, fpSize) < Pow2(8 * fpSize)
  {
    Pow256IsPow2(fpSize);
    hide R.ExtractFingerprint;
  }

  lemma {:induction false} Pow256IsPow2(n: nat)
    ensures Pow256(n) == Pow2(8 * n)
  {
    if n > 0 {
      Pow256IsPow2(n - 1);
      EightMore(8 * (n - 1));
    }
  }

  lemma EightMore(n: nat)
    ensures Pow2(n + 8) == 256 * Pow2(n)
  {
    assert Pow2(n + 8) == 2 * Pow2(n + 7) && Pow2(n + 7) == 2 * Pow2(n + 6) && Pow2(n + 6) == 2 * Pow2(n + 5);
    assert Pow2(n + 5) == 2 * Pow2(n + 4) && Pow2(n + 4) == 2 * Pow2(n + 3) && Pow2(n + 3) == 2 * Pow2(n + 2);
    assert Pow2(n + 2) == 2 * Pow2(n + 1) && Pow2(n + 1) == 2 * Pow2(n);
  }

  lemma InRangeIf(dec: Decoder, b: Block)
    requires forall k0: UInt64, k1: UInt64 {:trigger dec(k0, k1, b.metadata, b.numKeys)} ::
               dec(k0, k1, b.metadata, b.numKeys).Ok? ==> dec(k0, k1, b.metadata, b.numKeys).value < b.numKeys
    ensures StaysInRange(dec, b)
  {
  }

  lemma SizesCommute(c: Config)
    ensures c.EntrySize() == c.payloadSize + c.fingerprintSize == c.fingerprintSize + c.payloadSize
  {
  }

  // ---------- Bytes with given contents ----------

  // A region of n entries with the given contents in different slots.
  lemma {:induction false} RegionExists(slots: seq<nat>, contents: seq<seq<Byte>>, n: nat, size: nat, i: nat) returns (region: seq<Byte>)
    requires NoDup(slots) && |slots| == |contents| && i <= |slots|
    requires forall k :: 0 <= k < |slots| ==> slots[k] < n && |contents[k]| == size
    ensures |region| == Offset(n, size)
    ensures forall k :: 0 <= k < i ==> Offset(slots[k], size) + size <= |region| && EntryOf(region, slots[k], size) == contents[k]
  {
    hide Offset, EntryOf, Stored;
    if i == 0 {
      region := seq(Offset(n, size), _ => 0);
    } else {
      var before := RegionExists(slots, contents, n, size, i - 1);
      OffsetFits(slots[i - 1], n, size);
      var at := Offset(slots[i - 1], size);
      region := before[..at] + contents[i - 1] + before[at + size..];
      assert Stored(before, region, at, contents[i - 1]) by { StoredIs(before, region, at, contents[i - 1]); }
      forall k | 0 <= k < i ensures Offset(slots[k], size) + size <= |region| && EntryOf(region, slots[k], size) == contents[k] {
        OffsetFits(slots[k], n, size);
        StoredEntry(before, region, slots[i - 1], contents[i - 1], slots[k]);
      }
    }
  }

  lemma StoredIs(before: seq<Byte>, after: seq<Byte>, at: nat, bytes: seq<Byte>)
    requires at + |bytes| <= |before| && after == before[..at] + bytes + before[at + |bytes|..]
    ensures Stored(before, after, at, bytes)
  {
  }

  // n bytes with the given bits.
  function BytesOf(bits: seq<bool>, n: nat): (data: seq<Byte>)
    requires |bits| == 8 * n
    ensures |data| == n
    ensures forall p :: 0 <= p < 8 * n ==> StreamBit(data, p) == bits[p]
  {
    var data := seq(n, k requires 0 <= k < n => ByteOf(bits[8 * k..8 * k + 8]));
    assert forall p :: 0 <= p < 8 * n ==> StreamBit(data, p) == bits[p] by {
      hide ByteBits, ByteOf;
      forall p | 0 <= p < 8 * n ensures StreamBit(data, p) == bits[p] {
        var k := p / 8;
        assert data[k] == ByteOf(bits[8 * k..8 * k + 8]);
        assert bits[8 * k..8 * k + 8][p % 8] == bits[p];
      }
    }
    data
  }
}
