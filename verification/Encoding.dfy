/** Payload entries: a fingerprint followed by a payload, both little-endian. */
module Encoding {
  import opened Basics
  import opened LittleEndian
  import opened Words

  const MAX_FINGERPRINT_SIZE := 4
  const MAX_PAYLOAD_SIZE := 8

  // What one entry looks like on disk.
  function EntryBytes(fp: nat, payload: nat, fpSize: nat, payloadSize: nat): (r: seq<Byte>)
    ensures |r| == fpSize + payloadSize
  {
    PutLE(fp, fpSize) + PutLE(payload, payloadSize)
  }

  function ReadFP(buf: seq<Byte>, fpSize: nat): nat
    requires fpSize <= |buf|
  {
    GetLE(buf[..fpSize])
  }

  function ReadPayload(buf: seq<Byte>, payloadSize: nat): nat
    requires payloadSize <= |buf|
  {
    GetLE(buf[..payloadSize])
  }

  // Where slot `slot` starts.
  function Offset(slot: nat, entrySize: nat): nat { slot * entrySize }

  // Entry `slot` lies within a buffer of n > slot entries.
  lemma OffsetFits(slot: nat, n: nat, entrySize: nat)
    requires slot < n
    ensures Offset(slot, entrySize) + entrySize <= Offset(n, entrySize)
  {
    assert Offset(slot + 1, entrySize) == Offset(slot, entrySize) + entrySize;
    MulMonotone(slot + 1, n, entrySize);
  }

  function ReadEntry(buf: seq<Byte>, slot: nat, fpSize: nat, payloadSize: nat): (nat, nat)
    requires Offset(slot, fpSize + payloadSize) + fpSize + payloadSize <= |buf|
  {
    var offset := Offset(slot, fpSize + payloadSize);
    (ReadFP(buf[offset..], fpSize), ReadPayload(buf[offset + fpSize..], payloadSize))
  }

  // The entry of a slot, as bytes.
  function EntryOf(buf: seq<Byte>, slot: nat, entrySize: nat): (r: seq<Byte>)
    requires Offset(slot, entrySize) + entrySize <= |buf|
    ensures |r| == entrySize
  {
    buf[Offset(slot, entrySize)..Offset(slot, entrySize) + entrySize]
  }

  lemma ReadAt(buf: seq<Byte>, offset: nat, fp: nat, payload: nat, fpSize: nat, payloadSize: nat)
    requires offset + fpSize + payloadSize <= |buf|
    requires fp < Pow256(fpSize) && payload < Pow256(payloadSize)
    requires buf[offset..offset + fpSize + payloadSize] == EntryBytes(fp, payload, fpSize, payloadSize)
    ensures ReadFP(buf[offset..], fpSize) == fp && ReadPayload(buf[offset + fpSize..], payloadSize) == payload
  {
    var entry := buf[offset..offset + fpSize + payloadSize];
    assert buf[offset..][..fpSize] == entry[..fpSize] == PutLE(fp, fpSize);
    assert buf[offset + fpSize..][..payloadSize] == entry[fpSize..] == PutLE(payload, payloadSize);
    GetPut(fp, fpSize);
    GetPut(payload, payloadSize);
  }

  // Reading an entry gives back what was written, as far as it fits its field.
  lemma ReadWritten(buf: seq<Byte>, slot: nat, fp: nat, payload: nat, fpSize: nat, payloadSize: nat)
    requires Offset(slot, fpSize + payloadSize) + fpSize + payloadSize <= |buf|
    requires fp < Pow256(fpSize) && payload < Pow256(payloadSize)
    requires EntryOf(buf, slot, fpSize + payloadSize) == EntryBytes(fp, payload, fpSize, payloadSize)
    ensures ReadEntry(buf, slot, fpSize, payloadSize) == (fp, payload)
  {
    hide EntryBytes, Offset;
    ReadAt(buf, Offset(slot, fpSize + payloadSize), fp, payload, fpSize, payloadSize);
  }

  // ---------- The packed value ----------

  // uint64(fp) | payload << fpShift
  function Packed(fp: nat, payload: nat, fpShift: nat): Word {
    Or(ToBits(fp, 64), Shl(ToBits(payload, 64), fpShift))
  }

  lemma MulMonotone(a: nat, b: nat, m: nat)
    ensures a <= b ==> a * m <= b * m
  {
  }

  lemma DivUnique(v: nat, m: nat, q: nat, r: nat)
    requires v == q * m + r && r < m
    ensures v / m == q && v % m == r
  {
    MulMonotone(v / m + 1, q, m);
    MulMonotone(q + 1, v / m, m);
  }

  // Halving first, then dividing by p.
  lemma DivHalves(v: nat, p: nat)
    requires p > 0
    ensures v / (2 * p) == v / 2 / p && v % (2 * p) % 2 == v % 2 && v % (2 * p) / 2 == v / 2 % p
  {
    var q, r := v / 2 / p, v / 2 % p;
    assert v == q * (2 * p) + (2 * r + v % 2);
    DivUnique(v, 2 * p, q, 2 * r + v % 2);
  }

  lemma {:induction false} BitsMod(v: nat, n: nat)
    ensures ToBits(v % Pow2(n), n) == ToBits(v, n) && Shifted(v, n) == v / Pow2(n)
  {
    if n > 0 {
      BitsMod(v / 2, n - 1);
      DivHalves(v, Pow2(n - 1));
    }
  }

  lemma ByteSplit(v: nat, m: nat)
    ensures ToBits(v, 8 + m) == ByteBits(v % 256) + ToBits(v / 256, m)
  {
    assert Pow2(8) == 256;
    hide ToBits, Pow2, Shifted;
    BitsSplit(v, 8, m);
    BitsMod(v, 8);
  }

  lemma {:induction false} PutLEStream(v: nat, n: nat)
    ensures Stream(PutLE(v, n)) == ToBits(v, 8 * n)
  {
    if n > 0 {
      PutLEStream(v / 256, n - 1);
      ByteSplit(v, 8 * (n - 1));
      hide ByteBits, ToBits;
      StreamAppend([v % 256], PutLE(v / 256, n - 1));
      assert Stream([v % 256]) == ByteBits(v % 256);
    }
  }

  lemma PackedBits(fp: nat, payload: nat, f: nat, p: nat)
    requires f + p <= 64 && fp < Pow2(f)
    ensures Packed(fp, payload, f)[..f + p] == ToBits(fp, f) + ToBits(payload, p)
  {
    BitPrefix(fp, f, 64);
    BitPrefix(payload, p, 64);
    HighBitsClear(fp, f, 64);
    var l, h := ToBits(fp, 64), ToBits(payload, 64);
    hide ToBits, Pow2;
    forall i | 0 <= i < f + p
      ensures Packed(fp, payload, f)[i] == (ToBits(fp, f) + ToBits(payload, p))[i]
    {
      if i < f {
        assert l[i] == l[..f][i];
      } else {
        assert h[i - f] == h[..p][i - f];
      }
    }
  }

  // The low bytes of the packed value are the entry.
  lemma PackedBytes(fp: nat, payload: nat, fpSize: nat, payloadSize: nat)
    requires fpSize + payloadSize <= 8 && fp < Pow2(8 * fpSize)
    ensures WordBytes(Packed(fp, payload, 8 * fpSize))[..fpSize + payloadSize] == EntryBytes(fp, payload, fpSize, payloadSize)
  {
    var w := Packed(fp, payload, 8 * fpSize);
    var e := fpSize + payloadSize;
    var bytes := WordBytes(w);
    PutLEStream(fp, fpSize);
    PutLEStream(payload, payloadSize);
    PackedBits(fp, payload, 8 * fpSize, 8 * payloadSize);
    hide Packed, ToBits, Pow2, WordBytes, PutLE;
    StreamAppend(bytes[..e], bytes[e..]);
    assert bytes[..e] + bytes[e..] == bytes;
    StreamAppend(PutLE(fp, fpSize), PutLE(payload, payloadSize));
    hide Stream;
    assert Stream(bytes[..e]) == w[..8 * e];
    StreamInjective(bytes[..e], EntryBytes(fp, payload, fpSize, payloadSize));
  }

  // ---------- Writing ----------

  // `after` is `before` with `bytes` stored at `at`.
  ghost predicate Stored(before: seq<Byte>, after: seq<Byte>, at: nat, bytes: seq<Byte>) {
    && at + |bytes| <= |before| == |after|
    && after == before[..at] + bytes + before[at + |bytes|..]
  }

  // Storing right behind a stretch extends it.
  lemma StoredAppends(before: seq<Byte>, after: seq<Byte>, from: nat, mid: nat, prefix: seq<Byte>, bytes: seq<Byte>)
    requires from <= mid && Stored(before, after, mid, bytes)
    requires before[from..mid] == prefix
    ensures mid + |bytes| <= |after| && after[from..mid + |bytes|] == prefix + bytes
    ensures after[..from] == before[..from]
  {
    assert after[..mid] == before[..mid];
    assert after[mid..mid + |bytes|] == bytes;
    assert after[from..mid] == after[..mid][from..] == prefix;
    assert after[from..mid + |bytes|] == after[from..mid] + after[mid..mid + |bytes|];
    assert after[..from] == after[..mid][..from];
  }

  method Store(dst: array<Byte>, at: nat, bytes: seq<Byte>)
    requires at + |bytes| <= dst.Length
    modifies dst
    ensures Stored(old(dst[..]), dst[..], at, bytes)
  {
    for i := 0 to |bytes|
      invariant dst[..at] == old(dst[..at])
      invariant dst[at..at + i] == bytes[..i]
      invariant dst[at + i..] == old(dst[at + i..])
    {
      dst[at + i] := bytes[i];
    }
    assert dst[..] == dst[..at] + dst[at..at + |bytes|] + dst[at + |bytes|..];
  }

  // Wide stores of the packed value; other entry sizes are WriteEntryGeneric's.
  method WriteEntry(dst: array<Byte>, pos: nat, entrySize: nat, fp: nat, payload: nat, fpSize: nat)
    requires entrySize in {1, 4, 5, 8} && fpSize <= entrySize && fp < Pow2(8 * fpSize)
    requires Offset(pos, entrySize) + entrySize <= dst.Length
    modifies dst
    ensures Stored(old(dst[..]), dst[..], Offset(pos, entrySize), EntryBytes(fp, payload, fpSize, entrySize - fpSize))
  {
    hide Stored, Offset, WordBytes, Packed, EntryBytes;
    var val := WordBytes(Packed(fp, payload, 8 * fpSize));
    PackedBytes(fp, payload, fpSize, entrySize - fpSize);
    Store(dst, Offset(pos, entrySize), val[..entrySize]);
  }

  // Byte i of a little-endian value: uint8(v >> (8 * i)).
  function ByteAt(v: nat, i: nat): Byte {
    if i == 0 then v % 256 else ByteAt(v / 256, i - 1)
  }

  lemma {:induction false} PutLEAt(v: nat, n: nat, i: nat)
    requires i < n
    ensures PutLE(v, n)[i] == ByteAt(v, i)
  {
    if i > 0 {
      PutLEAt(v / 256, n - 1, i - 1);
    }
  }

  lemma StoredTwice(a: seq<Byte>, b: seq<Byte>, c: seq<Byte>, at: nat, s: seq<Byte>, t: seq<Byte>)
    requires Stored(a, b, at, s) && Stored(b, c, at + |s|, t)
    ensures Stored(a, c, at, s + t)
  {
    assert b[..at + |s|] == a[..at] + s;
    assert b[at + |s| + |t|..] == a[at + |s| + |t|..];
  }

  // One field, byte by byte.
  method WriteField(dst: array<Byte>, at: nat, v: nat, size: nat)
    requires at + size <= dst.Length
    modifies dst
    ensures Stored(old(dst[..]), dst[..], at, PutLE(v, size))
  {
    for i := 0 to size
      invariant dst[..at] == old(dst[..at])
      invariant dst[at..at + i] == PutLE(v, size)[..i]
      invariant dst[at + i..] == old(dst[at + i..])
    {
      PutLEAt(v, size, i);
      dst[at + i] := ByteAt(v, i);
    }
    assert dst[..] == dst[..at] + dst[at..at + size] + dst[at + size..];
  }

  method WriteEntryGeneric(dst: array<Byte>, pos: nat, entrySize: nat, fp: nat, payload: nat, fpSize: nat)
    requires fpSize <= entrySize && Offset(pos, entrySize) + entrySize <= dst.Length
    modifies dst
    ensures Stored(old(dst[..]), dst[..], Offset(pos, entrySize), EntryBytes(fp, payload, fpSize, entrySize - fpSize))
  {
    hide Stored, PutLE, Offset;
    var at := Offset(pos, entrySize);
    ghost var before := dst[..];
    WriteField(dst, at, fp, fpSize);
    ghost var between := dst[..];
    var payloadSize := entrySize - fpSize;
    if payloadSize == 0 {
      assert PutLE(fp, fpSize) + PutLE(payload, 0) == PutLE(fp, fpSize);
      return;
    }
    WriteField(dst, at + fpSize, payload, payloadSize);
    StoredTwice(before, between, dst[..], at, PutLE(fp, fpSize), PutLE(payload, payloadSize));
  }

  // ---------- Regions of entries ----------

  lemma StoredLength(before: seq<Byte>, after: seq<Byte>, at: nat, bytes: seq<Byte>)
    requires Stored(before, after, at, bytes)
    ensures at + |bytes| <= |before| == |after|
  {
  }

  // A write to one slot leaves the entries of other slots alone.
  lemma StoredEntry(before: seq<Byte>, after: seq<Byte>, slot: nat, bytes: seq<Byte>, other: nat)
    requires Stored(before, after, Offset(slot, |bytes|), bytes)
    requires Offset(other, |bytes|) + |bytes| <= |before|
    ensures EntryOf(after, slot, |bytes|) == bytes
    ensures other != slot ==> EntryOf(after, other, |bytes|) == EntryOf(before, other, |bytes|)
  {
    var e := |bytes|;
    if other < slot {
      OffsetFits(other, slot, e);
    } else if slot < other {
      OffsetFits(slot, other, e);
    }
    hide Offset;
  }

  ghost predicate SameEntry(s: seq<Byte>, t: seq<Byte>, r: nat, e: nat) {
    Offset(r, e) + e <= |s| && Offset(r, e) + e <= |t| && EntryOf(s, r, e) == EntryOf(t, r, e)
  }

  // A region of n entries is determined by them.
  lemma {:induction false} RegionDetermined(s: seq<Byte>, t: seq<Byte>, n: nat, e: nat)
    requires Offset(n, e) <= |s| && Offset(n, e) <= |t|
    requires forall r :: 0 <= r < n ==> SameEntry(s, t, r, e)
    ensures s[..Offset(n, e)] == t[..Offset(n, e)]
  {
    if n > 0 {
      assert Offset(n, e) == Offset(n - 1, e) + e;
      hide Offset;
      assert SameEntry(s, t, n - 1, e);
      RegionDetermined(s, t, n - 1, e);
      assert s[..Offset(n, e)] == s[..Offset(n - 1, e)] + EntryOf(s, n - 1, e);
      assert t[..Offset(n, e)] == t[..Offset(n - 1, e)] + EntryOf(t, n - 1, e);
    }
  }
}
