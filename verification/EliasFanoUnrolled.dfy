/** The full Elias-Fano decoder: all values in one pass over 64-bit words, the low bits first,
    then the unary gaps. */
module EliasFanoUnrolled {
  import opened Basics
  import opened Words
  import opened BitIO
  import opened SeedStream
  import opened EliasFano
  import opened BijMetadata
  import opened BijBlock

  const UNROLL := 8

  // Bytes `from` .. `from + n - 1`, little-endian.
  method PartialWord(data: seq<Byte>, from: nat, n: nat) returns (w: Word)
    requires n < 8 && from + n == |data|
    ensures w == LoadWord(data, from)
  {
    w := ZERO;
    for j := 0 to n
      invariant forall i :: 0 <= i < 64 ==> w[i] == (i < 8 * j && StreamBit(data, 8 * from + i))
    {
      ByteWordBits(data[from + j]);
      ghost var before := w;
      w := Or(w, Shl(ByteWord(data[from + j]), 8 * j));
      forall i | 0 <= i < 64 ensures w[i] == (i < 8 * (j + 1) && StreamBit(data, 8 * from + i)) {
        if 8 * j <= i < 8 * j + 8 {
          assert (8 * from + i) / 8 == from + j && (8 * from + i) % 8 == i - 8 * j;
        }
        hide ByteBits, ByteWord;
      }
    }
    assert w == LoadWord(data, from);
  }

  // uint64(b)
  function ByteWord(b: Byte): Word { ToBits(b, 64) }

  lemma ByteWordBits(b: Byte)
    ensures forall i :: 0 <= i < 64 ==> ByteWord(b)[i] == (i < 8 && ByteBits(b)[i])
  {
    BitPrefix(b, 8, 64);
    assert Pow2(8) == 256;
    HighBitsClear(b, 8, 64);
    hide ToBits;
    assert forall i :: 0 <= i < 8 ==> ToBits(b, 64)[i] == ToBits(b, 64)[..8][i];
  }

  // The next w[i] bits of a stream from pos on.
  ghost predicate Extracted(data: seq<Byte>, pos: nat, n: nat, w: Word) {
    forall i :: 0 <= i < 64 ==> w[i] == (i < n && StreamBit(data, pos + i))
  }

  lemma ExtractedIs(data: seq<Byte>, pos: nat, n: nat, w: Word)
    requires Extracted(data, pos, n, w) && n <= 16
    ensures ToNat(w[..16]) == ToNat(BitsAt(data, pos, n))
  {
    hide ToNat, StreamBit;
    LowBitsValue(w, BitsAt(data, pos, n));
  }

  lemma FromWord(data: seq<Byte>, start: nat, bitPos: nat, n: nat)
    requires bitPos + n <= 64
    ensures Extracted(data, 8 * start + bitPos, n, And(Shr(LoadWord(data, start), bitPos), Mask(n)))
  {
    hide StreamBit;
    var w := Shr(LoadWord(data, start), bitPos);
    forall i | 0 <= i < n ensures w[i] == StreamBit(data, 8 * start + bitPos + i) {
      assert 8 * start + (bitPos + i) == 8 * start + bitPos + i;
    }
  }

  // The rest of one word and the beginning of the next.
  lemma AcrossWords(data: seq<Byte>, start: nat, bitPos: nat, n: nat)
    requires bitPos < 64 < bitPos + n && n <= 64
    ensures var fit := 64 - bitPos;
            Extracted(data, 8 * start + bitPos, n,
                      Or(Shr(LoadWord(data, start), bitPos), Shl(And(LoadWord(data, start + 8), Mask(n - fit)), fit)))
  {
    hide StreamBit;
    var fit := 64 - bitPos;
    var low, high := Shr(LoadWord(data, start), bitPos), Shl(And(LoadWord(data, start + 8), Mask(n - fit)), fit);
    forall i | 0 <= i < fit ensures low[i] == StreamBit(data, 8 * start + bitPos + i) {
      assert 8 * start + (bitPos + i) == 8 * start + bitPos + i;
    }
    forall i | fit <= i < n ensures high[i] == StreamBit(data, 8 * start + bitPos + i) {
      assert 8 * (start + 8) + (i - fit) == 8 * start + bitPos + i;
    }
  }

  // The bits left in a word hold the next mark, or none.
  lemma RestOfWord(data: seq<Byte>, start: nat, bitPos: nat, to: nat)
    requires bitPos < 64 && NextMark(data, 8 * start + bitPos, to)
    ensures var zeros := TrailingZeros(Shr(LoadWord(data, start), bitPos));
            && (zeros < 64 - bitPos ==> 8 * start + bitPos + zeros == to)
            && (zeros >= 64 - bitPos ==> NextMark(data, 8 * (start + 8), to))
  {
    hide StreamBit, TrailingZeros;
    var w := Shr(LoadWord(data, start), bitPos);
    var zeros := TrailingZeros(w);
    forall i | 0 <= i < 64 - bitPos ensures w[i] == StreamBit(data, 8 * start + bitPos + i) {
      assert 8 * start + (bitPos + i) == 8 * start + bitPos + i;
    }
    if to < 8 * start + 64 {
      assert w[to - (8 * start + bitPos)];
      assert zeros < 64 - bitPos ==> w[zeros] == StreamBit(data, 8 * start + bitPos + zeros);
    } else {
      assert forall i :: 0 <= i < 64 - bitPos ==> !w[i];
    }
  }

  // The last word of the data holds every mark that is left.
  lemma MarkInTail(data: seq<Byte>, start: nat, to: nat)
    requires NextMark(data, 8 * start, to) && |data| < start + 8
    ensures LoadWord(data, start) != ZERO
  {
    assert LoadWord(data, start)[to - 8 * start] == StreamBit(data, 8 * start + (to - 8 * start));
  }

  lemma NonZero(w: Word)
    requires w != ZERO
    ensures TrailingZeros(Shr(w, 0)) < 64
  {
    assert Shr(w, 0) == w;
    if TrailingZeros(w) == 64 { IsZero(w); }
  }

  lemma Beyond(data: seq<Byte>, start: nat)
    requires |data| <= start
    ensures LoadWord(data, start) == ZERO
  {
  }

  /** The word being consumed: its bits from bitPos on, then the bytes from bytePos on. */
  class Cursor {
    const data: seq<Byte>
    var current: Word
    var bitPos: nat
    var bytePos: nat

    // The byte the current word was loaded from.
    ghost var start: nat

    ghost predicate Valid()
      reads this
    {
      && current == LoadWord(data, start) && bitPos <= 64
      && bytePos == if start + 8 <= |data| then start + 8 else |data|
    }

    ghost function Pos(): nat
      reads this
    {
      8 * start + bitPos
    }

    constructor (data: seq<Byte>)
      requires |data| >= 8
      ensures Valid() && Pos() == 0 && this.data == data
    {
      this.data := data;
      current, bitPos, bytePos, start := LoadWord(data, 0), 0, 8, 0;
    }

    // The next word, as far as there is data.
    method Refill() returns (whole: bool)
      requires Valid()
      modifies `current, `bytePos, `start
      ensures Valid() && start == old(start) + 8
      ensures if whole then bytePos == old(bytePos) + 8 <= |data| else bytePos == |data| < start + 8
    {
      hide LoadWord;
      whole := bytePos + 8 <= |data|;
      if whole {
        current := LoadWord(data, bytePos);
        bytePos := bytePos + 8;
      } else {
        current := PartialWord(data, bytePos, |data| - bytePos);
        if bytePos < start + 8 {
          Beyond(data, bytePos);
          Beyond(data, start + 8);
        }
        bytePos := |data|;
      }
      start := start + 8;
    }

    // A value of n bits that spans two words.
    method CrossBoundary(n: nat) returns (v: nat)
      requires Valid() && bitPos < 64 < bitPos + n && n <= 16
      modifies this
      ensures Valid() && Pos() == old(Pos()) + n
      ensures v == ToNat(BitsAt(data, old(Pos()), n))
    {
      var bitsFromCurrent := 64 - bitPos;
      var lowPart := Shr(current, bitPos);
      AcrossWords(data, start, bitPos, n);
      ghost var at := Pos();
      hide LoadWord, Or, Shl, Shr, And, Mask, Extracted, ToNat;
      var _ := Refill();
      var bitsFromNext := n - bitsFromCurrent;
      var highPart := And(current, Mask(bitsFromNext));
      bitPos := bitsFromNext;
      var w := Or(lowPart, Shl(highPart, bitsFromCurrent));
      ExtractedIs(data, at, n, w);
      return ToNat(w[..16]);
    }

    // The next value of n bits.
    method Take(n: nat) returns (v: nat)
      requires Valid() && n <= 16
      modifies this
      ensures Valid() && Pos() == old(Pos()) + n
      ensures v == ToNat(BitsAt(data, old(Pos()), n))
    {
      hide LoadWord, ToNat;
      if bitPos >= 64 {
        var _ := Refill();
        bitPos := 0;
      }
      if bitPos + n <= 64 {
        v := Peek(0, n);
        bitPos := bitPos + n;
      } else {
        v := CrossBoundary(n);
      }
    }

    method Advance(n: nat)
      requires Valid() && bitPos + n <= 64
      modifies `bitPos
      ensures Valid() && Pos() == old(Pos()) + n
    {
      bitPos := bitPos + n;
    }

    // The n bits of the current word that lie `ahead` of the cursor.
    method Peek(ahead: nat, n: nat) returns (v: nat)
      requires Valid() && n <= 16 && bitPos + ahead + n <= 64
      ensures v == ToNat(BitsAt(data, Pos() + ahead, n))
    {
      FromWord(data, start, bitPos + ahead, n);
      var w := And(Shr(current, bitPos + ahead), Mask(n));
      hide LoadWord, Shr, And, Mask, Extracted, ToNat;
      ExtractedIs(data, 8 * start + (bitPos + ahead), n, w);
      return ToNat(w[..16]);
    }

    /** Moves past the next mark and says how far away it was; without one, stops at the end
        of the data. */
    method Gap(ghost target: nat, ghost marked: bool) returns (gap: nat)
      requires Valid()
      requires marked ==> NextMark(data, Pos(), target)
      modifies this
      ensures Valid()
      ensures marked ==> Pos() == target + 1 && gap == target - old(Pos())
    {
      hide LoadWord, NextMark, Shr, TrailingZeros;
      gap := 0;
      while true
        invariant Valid()
        invariant marked ==> NextMark(data, Pos(), target) && Pos() == old(Pos()) + gap
        decreases |data| - bytePos, if bitPos < 64 then 1 else 0
      {
        if bitPos >= 64 {
          var whole := Refill();
          if !whole {
            if marked { MarkInTail(data, start, target); }
            if current == ZERO {
              break;
            }
            NonZero(current);
          }
          bitPos := 0;
        }
        var remaining := Shr(current, bitPos);
        if marked { RestOfWord(data, start, bitPos, target); }
        var zeros := TrailingZeros(remaining);
        var available := 64 - bitPos;
        if zeros < available {
          if marked { MarkReached(data, Pos(), target); }
          bitPos := bitPos + zeros + 1;
          gap := gap + zeros;
          break;
        }
        gap := gap + available;
        bitPos := 64;
      }
    }
  }

  lemma MarkReached(data: seq<Byte>, from: nat, to: nat)
    requires NextMark(data, from, to)
    ensures from <= to
  {
  }

  // The low bits of value i, as the code holds them.
  function LowAt(data: seq<Byte>, i: nat, lowBits: nat): nat {
    ToNat(BitsAt(data, Times(i, lowBits), lowBits))
  }

  lemma LowAtIs(data: seq<Byte>, i: nat, lowBits: nat)
    ensures LowAt(data, i, lowBits) == ToNat(BitsAt(data, Times(i, lowBits), lowBits))
  {
  }

  lemma NoLow(data: seq<Byte>, i: nat)
    ensures LowAt(data, i, 0) == 0 && Times(i, 0) == 0
  {
    EmptyIsZero();
    assert BitsAt(data, Times(i, 0), 0) == [];
  }

  lemma TimesAhead(i: nat, j: nat, lowBits: nat)
    ensures Times(i + j, lowBits) == Times(i, lowBits) + Times(j, lowBits)
  {
  }

  lemma TimesMonotone(a: nat, b: nat, m: nat)
    requires a <= b
    ensures Times(a, m) <= Times(b, m)
  {
  }

  // Eight values at once while they fit into the word, one by one otherwise.
  method TakeEight(cursor: Cursor, i: nat, lowBits: nat, out: array<nat>)
    requires cursor.Valid() && lowBits <= 16 && i + UNROLL <= out.Length && cursor.Pos() == Times(i, lowBits)
    modifies cursor, out
    ensures cursor.Valid() && cursor.Pos() == Times(i + UNROLL, lowBits)
    ensures forall k :: i <= k < i + UNROLL ==> out[k] == LowAt(cursor.data, k, lowBits)
    ensures forall k :: 0 <= k < out.Length && !(i <= k < i + UNROLL) ==> out[k] == old(out[k])
  {
    hide Cursor.Valid, ToNat, BitsAt, Times;
    if lowBits == 0 {
      NoLow(cursor.data, i + UNROLL);
      NoLow(cursor.data, i);
      for j := 0 to UNROLL
        invariant cursor.Valid() && cursor.Pos() == 0
        invariant forall k :: i <= k < i + j ==> out[k] == LowAt(cursor.data, k, lowBits)
        invariant forall k :: 0 <= k < out.Length && !(i <= k < i + j) ==> out[k] == old(out[k])
      {
        NoLow(cursor.data, i + j);
        out[i + j] := 0;
      }
    } else if cursor.bitPos + Times(UNROLL, lowBits) <= 64 {
      for j := 0 to UNROLL
        invariant cursor.Valid() && cursor.Pos() == Times(i, lowBits) && cursor.bitPos == old(cursor.bitPos)
        invariant forall k :: i <= k < i + j ==> out[k] == LowAt(cursor.data, k, lowBits)
        invariant forall k :: 0 <= k < out.Length && !(i <= k < i + j) ==> out[k] == old(out[k])
      {
        TimesAhead(i, j, lowBits);
        TimesMonotone(j + 1, UNROLL, lowBits);
        TimesStep(j, lowBits);
        out[i + j] := cursor.Peek(Times(j, lowBits), lowBits);
      }
      TimesAhead(i, UNROLL, lowBits);
      cursor.Advance(Times(UNROLL, lowBits));
    } else {
      for j := 0 to UNROLL
        invariant cursor.Valid() && cursor.Pos() == Times(i + j, lowBits)
        invariant forall k :: i <= k < i + j ==> out[k] == LowAt(cursor.data, k, lowBits)
        invariant forall k :: 0 <= k < out.Length && !(i <= k < i + j) ==> out[k] == old(out[k])
      {
        out[i + j] := cursor.Take(lowBits);
        TimesStep(i + j, lowBits);
      }
    }
  }

  // All low bits.
  method TakeLowBits(cursor: Cursor, n: nat, lowBits: nat, out: array<nat>)
    requires cursor.Valid() && cursor.Pos() == 0 && lowBits <= 16 && n <= out.Length
    modifies cursor, out
    ensures cursor.Valid() && cursor.Pos() == Times(n, lowBits)
    ensures forall k :: 0 <= k < n ==> out[k] == LowAt(cursor.data, k, lowBits)
  {
    TimesStep(0, lowBits);
    hide Cursor.Valid, LowAt, Times;
    var i := 0;
    while i + UNROLL <= n
      invariant i <= n && cursor.Valid() && cursor.Pos() == Times(i, lowBits)
      invariant forall k :: 0 <= k < i ==> out[k] == LowAt(cursor.data, k, lowBits)
    {
      TakeEight(cursor, i, lowBits, out);
      i := i + UNROLL;
    }
    while i < n
      invariant i <= n && cursor.Valid() && cursor.Pos() == Times(i, lowBits)
      invariant forall k :: 0 <= k < i ==> out[k] == LowAt(cursor.data, k, lowBits)
    {
      out[i] := cursor.Take(lowBits);
      LowAtIs(cursor.data, i, lowBits);
      TimesStep(i, lowBits);
      i := i + 1;
    }
  }

  // Data that starts with the code of the non-decreasing 16-bit values `cum`.
  ghost predicate WellFormed(data: seq<Byte>, cum: seq<nat>, lowBits: nat) {
    && |data| >= 8 && |cum| > 0 && Encodes(data, cum, lowBits)
    && (forall i :: 0 <= i < |cum| ==> cum[i] < 0x1_0000)
    && (forall i :: 0 < i < |cum| ==> cum[i - 1] <= cum[i])
  }

  lemma WellFormedFacts(data: seq<Byte>, cum: seq<nat>, lowBits: nat)
    requires WellFormed(data, cum, lowBits)
    ensures |cum| > 0 && |data| >= 8 && Decodable(data, cum, lowBits, 0, |cum| - 1, 0)
    ensures forall first, last :: 0 <= first <= last < |cum| ==>
              Decodable(data, cum, lowBits, first, last, ScanStart(cum, lowBits, first))
  {
    hide Encodes, MarkPos;
  }

  lemma LowBitsSmall(n: nat, U: nat)
    requires U < 0x1_0000
    ensures ComputeEFLowBits(n, U) < 16
  {
    if n > 0 && U > n {
      assert U / n <= U;
      assert Pow2(16) == 0x1_0000 by { assert Pow2(8) == 256; assert Pow2(12) == 4096; }
      LenLess(U / n, 16);
    }
  }

  // From value i to the next.
  lemma UnrolledStep(data: seq<Byte>, cum: seq<nat>, lowBits: nat, i: nat)
    requires WellFormed(data, cum, lowBits) && lowBits <= 16 && i < |cum|
    ensures NextMark(data, Times(|cum|, lowBits) + ScanStart(cum, lowBits, i), Times(|cum|, lowBits) + MarkPos(cum, lowBits, i))
    ensures ScanStart(cum, lowBits, i) <= MarkPos(cum, lowBits, i) && ScanStart(cum, lowBits, i + 1) == MarkPos(cum, lowBits, i) + 1
    ensures var next := U16(HighBefore(cum, lowBits, i) + (MarkPos(cum, lowBits, i) - ScanStart(cum, lowBits, i)));
            && next == HighBefore(cum, lowBits, i + 1)
            && U16(Combined(next, lowBits, LowAt(data, i, lowBits))) == cum[i]
  {
    hide *;
    WellFormedFacts(data, cum, lowBits);
    var start, high := ScanStart(cum, lowBits, i), HighBefore(cum, lowBits, i);
    ScanAtIs(cum, lowBits, i, start, high);
    ScanSteps(data, cum, lowBits, 0, |cum| - 1, 0, i, start, high);
    ScanAtIs(cum, lowBits, i + 1, MarkPos(cum, lowBits, i) + 1, U16(high + (MarkPos(cum, lowBits, i) - start)));
    ReadLow(data, i, lowBits);
    LowAtIs(data, i, lowBits);
  }

  // Before value i: the cursor is where the search for its mark starts.
  ghost predicate Before(cursor: Cursor, cum: seq<nat>, lowBits: nat, i: nat, high: nat)
    reads cursor
  {
    && WellFormed(cursor.data, cum, lowBits) && i <= |cum| && high == HighBefore(cum, lowBits, i)
    && cursor.Pos() == Times(|cum|, lowBits) + ScanStart(cum, lowBits, i)
  }

  // One value: its gap is added to the high part, which joins its low bits.
  method TakeHigh(cursor: Cursor, lowBits: nat, high: nat, low: nat, ghost cum: seq<nat>, ghost i: nat, ghost ok: bool)
    returns (next: nat, v: nat)
    requires cursor.Valid() && lowBits <= 16
    requires ok ==> Before(cursor, cum, lowBits, i, high) && i < |cum| && low == LowAt(cursor.data, i, lowBits)
    modifies cursor
    ensures cursor.Valid()
    ensures ok ==> Before(cursor, cum, lowBits, i + 1, next) && v == cum[i]
  {
    hide *;
    ghost var target := 0;
    ghost var data := cursor.data;
    if ok {
      BeforeIs(cursor, cum, lowBits, i, high);
      UnrolledStep(data, cum, lowBits, i);
      target := Times(|cum|, lowBits) + MarkPos(cum, lowBits, i);
    }
    var gap := cursor.Gap(target, ok);
    next := U16(high + gap);
    v := U16(Combined(next, lowBits, low));
    if ok { BeforeIs(cursor, cum, lowBits, i + 1, next); }
  }

  lemma BeforeIs(cursor: Cursor, cum: seq<nat>, lowBits: nat, i: nat, high: nat)
    ensures Before(cursor, cum, lowBits, i, high) <==>
      && WellFormed(cursor.data, cum, lowBits) && i <= |cum| && high == HighBefore(cum, lowBits, i)
      && cursor.Pos() == Times(|cum|, lowBits) + ScanStart(cum, lowBits, i)
  {
  }

  // The gaps, one mark per value, added to the low bits.
  method TakeHighBits(cursor: Cursor, n: nat, lowBits: nat, out: array<nat>, ghost cum: seq<nat>, ghost ok: bool)
    requires cursor.Valid() && n <= out.Length && lowBits <= 16
    requires forall k :: 0 <= k < n ==> out[k] == LowAt(cursor.data, k, lowBits)
    requires ok ==> |cum| == n && Before(cursor, cum, lowBits, 0, 0)
    modifies cursor, out
    ensures ok ==> forall k :: 0 <= k < n ==> out[k] == cum[k]
  {
    hide *;
    var currentHigh: nat := 0;
    for i := 0 to n
      invariant cursor.Valid()
      invariant ok ==> Before(cursor, cum, lowBits, i, currentHigh)
      invariant forall k :: i <= k < n ==> out[k] == LowAt(cursor.data, k, lowBits)
      invariant ok ==> forall k :: 0 <= k < i ==> out[k] == cum[k]
    {
      var v: nat;
      currentHigh, v := TakeHigh(cursor, lowBits, currentHigh, out[i], cum, i, ok);
      out[i] := v;
    }
  }

  /** The full decoder returns every value that was coded. */
  method DecodeEliasFanoUnrolled(data: seq<Byte>, n: nat, U: nat, out: array<nat>, ghost cum: seq<nat>)
    requires U < 0x1_0000 && out.Length == NUM_BUCKETS
    modifies out
    ensures n == 0 || n > NUM_BUCKETS || |data| < 8 ==> out[..] == old(out[..])
    ensures n <= NUM_BUCKETS && |cum| == n && WellFormed(data, cum, ComputeEFLowBits(n, U)) ==> out[..n] == cum
  {
    LowBitsSmall(n, U);
    ghost var ok := |cum| == n && WellFormed(data, cum, ComputeEFLowBits(n, U));
    if ok { WellFormedFacts(data, cum, ComputeEFLowBits(n, U)); }
    hide *;
    if n == 0 || n > NUM_BUCKETS {
      return;
    }
    if |data| < 8 {
      return;
    }
    var lowBits := ComputeEFLowBits(n, U);
    var cursor := new Cursor(data);
    TakeLowBits(cursor, n, lowBits, out);
    if ok { FirstValue(cursor, cum, lowBits); }
    TakeHighBits(cursor, n, lowBits, out, cum, ok);
    if ok { assert out[..n] == cum; }
  }

  lemma FirstValue(cursor: Cursor, cum: seq<nat>, lowBits: nat)
    requires WellFormed(cursor.data, cum, lowBits) && cursor.Pos() == Times(|cum|, lowBits)
    ensures Before(cursor, cum, lowBits, 0, 0)
  {
    hide WellFormed, Times;
  }

  /** On a well-formed code the range decoder, started at a segment's checkpoint, and the full
      decoder agree. */
  method DecodersAgree(data: seq<Byte>, n: nat, U: nat, first: nat, last: nat, ghost cum: seq<nat>, startBit: nat)
    returns (part: array<nat>, full: array<nat>)
    requires n == |cum| <= NUM_BUCKETS && U < 0x1_0000 && first <= last < n
    requires WellFormed(data, cum, ComputeEFLowBits(n, U)) && startBit == ScanStart(cum, ComputeEFLowBits(n, U), first)
    ensures part.Length == full.Length == NUM_BUCKETS
    ensures forall i :: first <= i <= last ==> part[i] == full[i] == cum[i]
  {
    part, full := new nat[NUM_BUCKETS], new nat[NUM_BUCKETS];
    hide *;
    LowBitsSmall(n, U);
    WellFormedFacts(data, cum, ComputeEFLowBits(n, U));
    var _ := DecodeEFRangeInline(data, n, U, first, last, startBit, part, cum);
    DecodeEliasFanoUnrolled(data, n, U, full, cum);
    assert forall i :: first <= i <= last ==> full[i] == full[..n][i];
  }

  /** Coding and fully decoding returns the values if the code has at least eight bytes; below
      that the decoder writes nothing. */
  method RoundTrip(cum: seq<nat>, U: nat, out: array<nat>)
    requires 0 < |cum| <= NUM_BUCKETS == out.Length && U < 0x1_0000
    requires (forall k :: 0 < k < |cum| ==> cum[k - 1] <= cum[k]) && forall k :: 0 <= k < |cum| ==> cum[k] <= U
    modifies out
    ensures if EliasFanoSize(|cum|, U) >= 8 then out[..|cum|] == cum else out[..] == old(out[..])
  {
    LowBitsSmall(|cum|, U);
    var b := EncodeEliasFanoInto(cum, U);
    hide Encodes, Coded, EliasFanoSize;
    DecodeEliasFanoUnrolled(b[..], |cum|, U, out, cum);
  }
}
