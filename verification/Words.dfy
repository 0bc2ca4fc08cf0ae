/** 64-bit words and byte streams as the bits they hold, least significant first.
    A uint64 is exactly its 64 bits, so shifts, masks and little-endian loads are
    stated bit by bit. */
module Words {
  import opened Basics

  function Zeros(n: nat): (r: seq<bool>)
    ensures |r| == n && forall i :: 0 <= i < n ==> !r[i]
  {
    seq(n, _ => false)
  }

  type Word = w: seq<bool> | |w| == 64 witness Zeros(64)

  const ZERO: Word := Zeros(64)

  // 1 << k
  function Bit(k: nat): (r: Word)
    ensures forall i :: 0 <= i < 64 ==> r[i] == (i == k)
  {
    seq(64, i => i == k)
  }

  // (1 << n) - 1
  function Mask(n: nat): (r: Word)
    ensures forall i :: 0 <= i < 64 ==> r[i] == (i < n)
  {
    seq(64, i => i < n)
  }

  function And(a: Word, b: Word): (r: Word)
    ensures forall i :: 0 <= i < 64 ==> r[i] == (a[i] && b[i])
  {
    seq(64, i requires 0 <= i < 64 => a[i] && b[i])
  }

  function Or(a: Word, b: Word): (r: Word)
    ensures forall i :: 0 <= i < 64 ==> r[i] == (a[i] || b[i])
  {
    seq(64, i requires 0 <= i < 64 => a[i] || b[i])
  }

  function Not(a: Word): (r: Word)
    ensures forall i :: 0 <= i < 64 ==> r[i] == !a[i]
  {
    seq(64, i requires 0 <= i < 64 => !a[i])
  }

  // Shifts by 64 or more give zero, as in Go.
  function Shl(a: Word, n: nat): (r: Word)
    ensures forall i :: 0 <= i < 64 ==> r[i] == (i >= n && a[i - n])
  {
    seq(64, i requires 0 <= i < 64 => i >= n && a[i - n])
  }

  function Shr(a: Word, n: nat): (r: Word)
    ensures forall i :: 0 <= i < 64 ==> r[i] == (i + n < 64 && a[i + n])
  {
    seq(64, i requires 0 <= i < 64 => i + n < 64 && a[i + n])
  }

  // The number of low zero bits; 64 for the zero word.
  function TrailingZeros(a: Word): (n: nat)
    ensures n <= 64
    ensures forall i :: 0 <= i < n ==> !a[i]
    ensures n < 64 ==> a[n]
  {
    TrailingFrom(a, 0)
  }

  function TrailingFrom(a: Word, k: nat): (n: nat)
    requires k <= 64
    ensures k <= n <= 64
    ensures forall i :: k <= i < n ==> !a[i]
    ensures n < 64 ==> a[n]
    decreases 64 - k
  {
    if k == 64 || a[k] then k else TrailingFrom(a, k + 1)
  }

  // ---------- Bits as numbers ----------

  function Pow2(n: nat): (p: nat)
    ensures p >= 1
  {
    if n == 0 then 1 else 2 * Pow2(n - 1)
  }

  function ToNat(bits: seq<bool>): nat {
    if |bits| == 0 then 0 else (if bits[0] then 1 else 0) + 2 * ToNat(bits[1..])
  }

  // The low n bits of v.
  function ToBits(v: nat, n: nat): (r: seq<bool>)
    ensures |r| == n
  {
    if n == 0 then [] else [v % 2 == 1] + ToBits(v / 2, n - 1)
  }

  lemma {:induction false} ToNatToBits(v: nat, n: nat)
    requires v < Pow2(n)
    ensures ToNat(ToBits(v, n)) == v
  {
    if n > 0 {
      ToNatToBits(v / 2, n - 1);
      assert ToBits(v, n)[1..] == ToBits(v / 2, n - 1);
    }
  }

  lemma {:induction false} ToBitsToNat(bits: seq<bool>)
    ensures ToBits(ToNat(bits), |bits|) == bits
    ensures ToNat(bits) < Pow2(|bits|)
  {
    if |bits| > 0 {
      ToBitsToNat(bits[1..]);
      assert bits == [bits[0]] + bits[1..];
    }
  }

  lemma {:induction false} BitPrefix(v: nat, n: nat, m: nat)
    requires n <= m
    ensures ToBits(v, m)[..n] == ToBits(v, n)
  {
    if n > 0 {
      BitPrefix(v / 2, n - 1, m - 1);
      assert ToBits(v, m)[..n] == [v % 2 == 1] + ToBits(v / 2, m - 1)[..n - 1];
    }
  }

  lemma {:induction false} HighBitsClear(v: nat, n: nat, m: nat)
    requires n <= m && v < Pow2(n)
    ensures forall i :: n <= i < m ==> !ToBits(v, m)[i]
  {
    if m > 0 {
      if n == 0 {
        HighBitsClear(0, 0, m - 1);
      } else {
        HighBitsClear(v / 2, n - 1, m - 1);
      }
    }
  }

  // v >> n
  function Shifted(v: nat, n: nat): nat {
    if n == 0 then v else Shifted(v / 2, n - 1)
  }

  lemma {:induction false} BitsSplit(v: nat, n: nat, m: nat)
    ensures ToBits(v, n + m) == ToBits(v, n) + ToBits(Shifted(v, n), m)
  {
    if n > 0 {
      BitsSplit(v / 2, n - 1, m);
    }
  }

  // ---------- Bytes ----------

  function ByteBits(b: Byte): (r: seq<bool>)
    ensures |r| == 8
  {
    ToBits(b, 8)
  }

  function ByteOf(bits: seq<bool>): (b: Byte)
    requires |bits| == 8
    ensures ByteBits(b) == bits
  {
    ToBitsToNat(bits);
    assert Pow2(8) == 256;
    ToNat(bits)
  }

  // The bits of a byte stream: bit i is bit i % 8 of byte i / 8.
  function Stream(data: seq<Byte>): (r: seq<bool>)
    ensures |r| == 8 * |data|
    ensures forall i :: 0 <= i < |r| ==> r[i] == ByteBits(data[i / 8])[i % 8]
  {
    seq(8 * |data|, i requires 0 <= i < 8 * |data| => ByteBits(data[i / 8])[i % 8])
  }

  // Bits past the end read as zero.
  function StreamBit(data: seq<Byte>, i: nat): bool {
    i < 8 * |data| && ByteBits(data[i / 8])[i % 8]
  }

  lemma ByteIndex(i: nat, n: nat)
    requires i >= 8 * n
    ensures i / 8 >= n && (i - 8 * n) / 8 == i / 8 - n && (i - 8 * n) % 8 == i % 8
  {
  }

  lemma StreamAppend(a: seq<Byte>, b: seq<Byte>)
    ensures Stream(a + b) == Stream(a) + Stream(b)
  {
    hide ByteBits;
    forall i | 0 <= i < 8 * |a + b| ensures Stream(a + b)[i] == (Stream(a) + Stream(b))[i] {
      if i >= 8 * |a| {
        ByteIndex(i, |a|);
        assert (a + b)[i / 8] == b[i / 8 - |a|];
      } else {
        assert (a + b)[i / 8] == a[i / 8];
      }
    }
  }

  lemma StreamInjective(a: seq<Byte>, b: seq<Byte>)
    requires Stream(a) == Stream(b)
    ensures a == b
  {
    assert 8 * |a| == |Stream(a)| == |Stream(b)| == 8 * |b|;
    forall k | 0 <= k < |a| ensures a[k] == b[k] {
      forall j | 0 <= j < 8 ensures ByteBits(a[k])[j] == ByteBits(b[k])[j] {
        assert Stream(a)[8 * k + j] == Stream(b)[8 * k + j];
        assert (8 * k + j) / 8 == k && (8 * k + j) % 8 == j;
      }
      assert ByteBits(a[k]) == ByteBits(b[k]);
      assert Pow2(8) == 256;
      ToNatToBits(a[k], 8);
      ToNatToBits(b[k], 8);
    }
  }

  lemma StreamOfChunks(data: seq<Byte>, bits: seq<bool>)
    requires |bits| == 8 * |data|
    requires forall k :: 0 <= k < |data| ==> ByteBits(data[k]) == bits[8 * k..8 * k + 8]
    ensures Stream(data) == bits
  {
    hide ByteBits;
    forall i | 0 <= i < |bits| ensures Stream(data)[i] == bits[i] {
      var k := i / 8;
      assert ByteBits(data[k])[i % 8] == bits[8 * k..8 * k + 8][i % 8];
    }
  }

  // Little-endian store of a word.
  function WordBytes(w: Word): (r: seq<Byte>)
    ensures |r| == 8
    ensures Stream(r) == w
  {
    hide Stream, ByteBits;
    var r := seq(8, j requires 0 <= j < 8 => ByteOf(w[8 * j..8 * j + 8]));
    StreamOfChunks(r, w);
    r
  }

  // Little-endian load of up to eight bytes; missing bytes read as zero.
  function LoadWord(data: seq<Byte>, at: nat): (w: Word)
    ensures forall i :: 0 <= i < 64 ==> w[i] == StreamBit(data, 8 * at + i)
  {
    seq(64, i requires 0 <= i < 64 => StreamBit(data, 8 * at + i))
  }
}
