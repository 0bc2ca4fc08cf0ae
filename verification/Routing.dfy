/** Keys: their two words, the block they are routed to, and their fingerprint. */
module Routing {
  import opened Basics
  import opened LittleEndian
  import opened FastRange
  import opened IndexFormat

  const MIN_KEY_SIZE: nat := 16
  const FINGERPRINT_MIXER: bv64 := 0x517c_c1b7_2722_0a95

  // A key as it is routed, with its payload.
  datatype Entry = Entry(k0: UInt64, k1: UInt64, payload: UInt64)

  function Reverse(s: seq<Byte>): (r: seq<Byte>)
    ensures |r| == |s|
  {
    if |s| == 0 then [] else Reverse(s[1..]) + [s[0]]
  }

  function Word(bytes: seq<Byte>): UInt64
    requires |bytes| == 8
  {
    PutGet(bytes);
    Pow256Is(8);
    GetLE(bytes)
  }

  function ReverseBytes64(x: UInt64): UInt64 { Word(Reverse(PutLE(x, 8))) }

  // The block of a key, by the big-endian reading of its first eight bytes.
  function Route(k0: UInt64, numBlocks: nat): (b: nat)
    ensures numBlocks > 0 ==> b < numBlocks
    ensures numBlocks == 0 ==> b == 0
  {
    FastRange32(ReverseBytes64(k0), numBlocks)
  }

  function BlockFn(numBlocks: nat): Entry -> nat { (e: Entry) => Route(e.k0, numBlocks) }

  function Mix(k0: bv64, k1: bv64): bv64 { k0 ^ (k1 * FINGERPRINT_MIXER) }

  function UpperHalf(x: bv64): bv64 { x >> 32 }

  // The low bytes of the mixed words' high half.
  function ExtractFingerprint(k0: UInt64, k1: UInt64, fingerprintSize: nat): (r: nat)
    ensures r < Pow256(fingerprintSize)
  {
    if fingerprintSize == 0 then 0
    else ToNat(UpperHalf(Mix(FromNat(k0), FromNat(k1)))) % Pow256(fingerprintSize)
  }

  // ---------- Sorted keys reach non-decreasing blocks ----------

  ghost predicate LexLeq(a: seq<Byte>, b: seq<Byte>)
    requires |a| == |b|
  {
    |a| == 0 || a[0] < b[0] || (a[0] == b[0] && LexLeq(a[1..], b[1..]))
  }

  lemma {:induction false} ReverseAppend(s: seq<Byte>, x: Byte)
    ensures Reverse(s + [x]) == [x] + Reverse(s)
  {
    if |s| > 0 {
      ReverseAppend(s[1..], x);
      assert (s + [x])[1..] == s[1..] + [x];
    }
  }

  lemma {:induction false} GetAppend(s: seq<Byte>, x: Byte)
    ensures GetLE(s + [x]) == GetLE(s) + Pow256(|s|) * x
  {
    if |s| > 0 {
      GetAppend(s[1..], x);
      assert (s + [x])[1..] == s[1..] + [x];
    }
  }

  // The first byte weighs most.
  lemma BigEndian(s: seq<Byte>)
    requires |s| > 0
    ensures GetLE(Reverse(s)) == GetLE(Reverse(s[1..])) + Pow256(|s| - 1) * s[0]
    ensures GetLE(Reverse(s[1..])) < Pow256(|s| - 1)
  {
    GetAppend(Reverse(s[1..]), s[0]);
    PutGet(Reverse(s[1..]));
  }

  lemma Heavier(p: nat, x: nat, y: nat, u: nat, v: nat)
    requires x < y && u < p
    ensures u + p * x <= v + p * y
  {
    assert p * x + p <= p * y by {
      assert p * (x + 1) <= p * y;
    }
  }

  lemma {:induction false} ReversedMonotone(a: seq<Byte>, b: seq<Byte>)
    requires |a| == |b| && LexLeq(a, b)
    ensures GetLE(Reverse(a)) <= GetLE(Reverse(b))
  {
    if |a| > 0 {
      BigEndian(a);
      BigEndian(b);
      if a[0] < b[0] {
        hide GetLE, Reverse, Pow256;
        Heavier(Pow256(|a| - 1), a[0], b[0], GetLE(Reverse(a[1..])), GetLE(Reverse(b[1..])));
      } else {
        ReversedMonotone(a[1..], b[1..]);
      }
    }
  }

  lemma ScaleMonotone(x: nat, y: nat, n: nat)
    requires x <= y
    ensures MulHigh(x, n) <= MulHigh(y, n)
  {
    assert x * n <= y * n;
    DivMonotone(x * n, y * n);
  }

  lemma DivMonotone(a: nat, b: nat)
    requires a <= b
    ensures a / 0x1_0000_0000_0000_0000 <= b / 0x1_0000_0000_0000_0000
  {
  }

  /** Keys in byte order are routed to blocks in order: sorted input never returns to a
      block. */
  lemma SortedKeysRouteInOrder(a: seq<Byte>, b: seq<Byte>, numBlocks: nat)
    requires |a| == |b| == 8 && LexLeq(a, b)
    ensures Route(Word(a), numBlocks) <= Route(Word(b), numBlocks)
  {
    PutGet(a);
    PutGet(b);
    ReversedMonotone(a, b);
    hide GetLE, PutLE, Reverse, LexLeq, MulHigh;
    ScaleMonotone(ReverseBytes64(Word(a)), ReverseBytes64(Word(b)), numBlocks);
  }

  // ---------- Which key reaches which block ----------

  // Bytes read with the most significant first.
  function BigEndianOf(s: seq<Byte>): nat {
    if |s| == 0 then 0 else BigEndianOf(s[..|s| - 1]) * 256 + s[|s| - 1]
  }

  lemma {:induction false} ReverseEnds(s: seq<Byte>)
    requires |s| > 0
    ensures Reverse(s) == [s[|s| - 1]] + Reverse(s[..|s| - 1])
  {
    ReverseAppend(s[..|s| - 1], s[|s| - 1]);
    assert s == s[..|s| - 1] + [s[|s| - 1]];
  }

  lemma {:induction false} ReversedIsBigEndian(s: seq<Byte>)
    ensures GetLE(Reverse(s)) == BigEndianOf(s)
  {
    if |s| > 0 {
      ReverseEnds(s);
      ReversedIsBigEndian(s[..|s| - 1]);
      assert Reverse(s)[1..] == Reverse(s[..|s| - 1]);
    }
  }

  lemma PrefixIs(key: seq<Byte>)
    requires |key| == 8
    ensures ReverseBytes64(Word(key)) == BigEndianOf(key) < TWO64
  {
    PutGet(key);
    ReversedIsBigEndian(key);
  }

  /** A key's block, by its first eight bytes read big-endian as a fraction of 2^64: block b takes
      exactly the fractions from b / n to (b + 1) / n. */
  lemma RouteExact(key: seq<Byte>, numBlocks: nat)
    requires |key| == 8 && numBlocks > 0
    ensures var b := Route(Word(key), numBlocks);
            b * 0x1_0000_0000_0000_0000 <= BigEndianOf(key) * numBlocks < (b + 1) * 0x1_0000_0000_0000_0000
  {
    PrefixIs(key);
    hide BigEndianOf, GetLE, Reverse, FastRange32;
    FastRangeExact(ReverseBytes64(Word(key)), numBlocks);
  }

  // The eight bytes of a big-endian number.
  lemma {:induction false} BigEndianBytes(v: nat, n: nat) returns (s: seq<Byte>)
    requires v < Pow256(n)
    ensures |s| == n && BigEndianOf(s) == v
  {
    if n == 0 {
      s := [];
    } else {
      var front := BigEndianBytes(v / 256, n - 1);
      s := front + [v % 256];
      assert s[..n - 1] == front;
    }
  }

  /** Every block is some key's. */
  lemma RouteOnto(b: nat, numBlocks: nat) returns (key: seq<Byte>)
    requires b < numBlocks <= 0x1_0000_0000
    ensures |key| == 8 && Route(Word(key), numBlocks) == b
  {
    FastRangeOnto(b, numBlocks);
    Pow256Is(8);
    key := BigEndianBytes(LeastHash(b, numBlocks), 8);
    PrefixIs(key);
    hide BigEndianOf, GetLE, Reverse, FastRange32, LeastHash;
  }

  /** The least key, of zero bytes, goes to the first block, and the greatest to the last. */
  lemma RouteEnds(numBlocks: nat)
    requires 0 < numBlocks <= 0x1_0000_0000
    ensures Route(Word(seq(8, _ => 0)), numBlocks) == 0
    ensures Route(Word(seq(8, _ => 255)), numBlocks) == numBlocks - 1
  {
    PrefixIs(seq(8, _ => 0));
    PrefixIs(seq(8, _ => 255));
    Constant(0, 8);
    Constant(255, 8);
    Pow256Is(8);
    hide BigEndianOf, GetLE, Reverse, FastRange32, Pow256, Word, PutLE;
    FastRangeEnds(numBlocks);
  }

  lemma {:induction false} Constant(x: Byte, n: nat)
    ensures x == 0 ==> BigEndianOf(seq(n, _ => x)) == 0
    ensures x == 255 ==> BigEndianOf(seq(n, _ => x)) == Pow256(n) - 1
  {
    if n > 0 {
      Constant(x, n - 1);
      assert seq(n, _ => x)[..n - 1] == seq(n - 1, _ => x);
    }
  }
}
