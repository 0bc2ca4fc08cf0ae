/** Mapping 64-bit hashes to ranges by the high word of a product. */
module FastRange {

  const TWO64: nat := 0x1_0000_0000_0000_0000

  // The high word of the 128-bit product.
  function MulHigh(a: nat, b: nat): nat { a * b / 0x1_0000_0000_0000_0000 }

  lemma MulHighBound(a: nat, b: nat)
    requires a < TWO64
    ensures b > 0 ==> MulHigh(a, b) < b
    ensures b == 0 ==> MulHigh(a, b) == 0
  {
    if b > 0 {
      Scaled(a, b);
      QuotientBound(a * b, b);
    }
  }

  lemma Scaled(a: nat, b: nat)
    requires a < TWO64 && b > 0
    ensures a * b < 0x1_0000_0000_0000_0000 * b
  {
  }

  lemma QuotientBound(x: nat, b: nat)
    requires x < 0x1_0000_0000_0000_0000 * b
    ensures x / 0x1_0000_0000_0000_0000 < b
  {
  }

  // Maps a 64-bit hash to [0, n); an empty range gives 0.
  function FastRange32(hash: nat, n: nat): (r: nat)
    requires hash < TWO64
    ensures n > 0 ==> r < n
    ensures n == 0 ==> r == 0
  {
    MulHighBound(hash, n);
    if n == 0 then 0 else MulHigh(hash, n)
  }

  function ToNat(x: bv64): (n: nat)
    ensures n < TWO64
  {
    x as nat
  }

  function FromNat(n: nat): bv64
    requires n < TWO64
  {
    n as bv64
  }

  lemma MulHighBelow(a: nat, b: nat)
    requires a < TWO64 && b < TWO64
    ensures MulHigh(a, b) < TWO64
  {
    MulHighBound(a, b);
  }

  // ---------- What the mapping is ----------

  lemma QuotientIs(x: nat)
    ensures x / 0x1_0000_0000_0000_0000 * 0x1_0000_0000_0000_0000 <= x < (x / 0x1_0000_0000_0000_0000 + 1) * 0x1_0000_0000_0000_0000
  {
  }

  lemma QuotientUnique(x: nat, q: nat)
    requires q * 0x1_0000_0000_0000_0000 <= x < (q + 1) * 0x1_0000_0000_0000_0000
    ensures x / 0x1_0000_0000_0000_0000 == q
  {
  }

  /** The hash, read as a fraction of 2^64, scaled to the range: result r covers exactly the hashes
      from r / n to (r + 1) / n. */
  lemma FastRangeExact(hash: nat, n: nat)
    requires hash < TWO64 && n > 0
    ensures FastRange32(hash, n) * 0x1_0000_0000_0000_0000 <= hash * n < (FastRange32(hash, n) + 1) * 0x1_0000_0000_0000_0000
  {
    QuotientIs(hash * n);
  }

  // The least hash that reaches r: r / n of 2^64, rounded up.
  function LeastHash(r: nat, n: nat): nat
    requires n > 0
  {
    (r * 0x1_0000_0000_0000_0000 + n - 1) / n
  }

  lemma CeilIs(x: nat, n: nat)
    requires n > 0
    ensures x <= (x + n - 1) / n * n < x + n
  {
    var q := (x + n - 1) / n;
    assert x + n - 1 == q * n + (x + n - 1) % n;
  }

  lemma TimesMonotone(a: nat, b: nat, n: nat)
    requires a <= b
    ensures a * n <= b * n
  {
  }

  lemma TimesLess(a: nat, b: nat, n: nat)
    requires n > 0 && a * n < b * n
    ensures a < b
  {
    if a >= b {
      TimesMonotone(b, a, n);
    }
  }

  /** Every value of the range is reached. */
  lemma FastRangeOnto(r: nat, n: nat)
    requires r < n <= TWO64
    ensures LeastHash(r, n) < TWO64 && FastRange32(LeastHash(r, n), n) == r
  {
    var x, h := r * 0x1_0000_0000_0000_0000, LeastHash(r, n);
    CeilIs(x, n);
    assert h * n < x + n <= (r + 1) * 0x1_0000_0000_0000_0000 by { assert n <= 0x1_0000_0000_0000_0000; }
    assert (r + 1) * 0x1_0000_0000_0000_0000 <= n * 0x1_0000_0000_0000_0000;
    TimesLess(h, 0x1_0000_0000_0000_0000, n);
    QuotientUnique(h * n, r);
  }

  /** The least hash goes to the first value, the greatest to the last. */
  lemma FastRangeEnds(n: nat)
    requires 0 < n <= TWO64
    ensures FastRange32(0, n) == 0 && FastRange32(0xFFFF_FFFF_FFFF_FFFF, n) == n - 1
  {
    QuotientUnique(0 * n, 0);
    QuotientUnique(0xFFFF_FFFF_FFFF_FFFF * n, n - 1);
  }
}
