/** Elias-Fano coding of the cumulative bucket sizes: the low bits of every value
    side by side, then one mark per value in unary-coded gaps of the high parts. */
module EliasFano {
  import opened Basics
  import opened Words
  import opened BitIO
  import opened SeedStream
  import opened Encoding

  // ---------- Parameters ----------

  function Times(a: nat, b: nat): nat { a * b }

  lemma TimesStep(a: nat, b: nat)
    ensures Times(0, b) == 0 && Times(a + 1, b) == Times(a, b) + b
  {
  }

  // bits.Len
  function Len(x: nat): nat {
    if x == 0 then 0 else 1 + Len(x / 2)
  }

  lemma {:induction false} LenBounds(x: nat)
    requires x > 0
    ensures Len(x) > 0 && Pow2(Len(x) - 1) <= x < Pow2(Len(x))
  {
    if x > 1 {
      LenBounds(x / 2);
    }
  }

  function ComputeEFLowBits(n: nat, U: nat): nat {
    if U <= n || n == 0 then 0
    else
      QuotientPositive(U, n);
      LenBounds(U / n);
      Len(U / n) - 1
  }

  lemma QuotientPositive(U: nat, n: nat)
    requires U > n > 0
    ensures U / n >= 1
  {
    assert U == U / n * n + U % n;
  }

  function HighBound(U: nat, lowBits: nat): nat {
    if lowBits < 16 then Shifted(U, lowBits) else 0
  }

  function TotalBits(n: nat, U: nat): nat {
    var lowBits := ComputeEFLowBits(n, U);
    Times(n, lowBits) + (n + HighBound(U, lowBits))
  }

  function EliasFanoSize(n: nat, U: nat): nat {
    if n == 0 then 0 else (TotalBits(n, U) + 7) / 8
  }

  // ---------- What the code says ----------

  ghost predicate Monotone(cum: seq<nat>, U: nat) {
    && (forall i, j :: 0 <= i <= j < |cum| ==> cum[i] <= cum[j])
    && (forall i :: 0 <= i < |cum| ==> cum[i] <= U)
  }

  // Where value i puts its mark among the high bits.
  function MarkPos(cum: seq<nat>, lowBits: nat, i: nat): nat
    requires i < |cum|
  {
    i + Shifted(cum[i], lowBits)
  }

  // The next set bit at or after `from` is `to`.
  ghost predicate NextMark(data: seq<Byte>, from: nat, to: nat) {
    from <= to && StreamBit(data, to) && forall p :: from <= p < to ==> !StreamBit(data, p)
  }

  // Where the search for the mark of value i starts.
  function ScanStart(cum: seq<nat>, lowBits: nat, i: nat): nat
    requires i <= |cum|
  {
    if i == 0 then 0 else MarkPos(cum, lowBits, i - 1) + 1
  }

  /** `data` starts with the code of `cum`: each value's low bits in order, and its
      mark as the next set bit behind the previous one. */
  ghost predicate Encodes(data: seq<Byte>, cum: seq<nat>, lowBits: nat) {
    && (forall i :: 0 <= i < |cum| ==> BitsAt(data, Times(i, lowBits), lowBits) == ToBits(cum[i], lowBits))
    && (forall i :: 0 <= i < |cum| ==>
          NextMark(data, Times(|cum|, lowBits) + ScanStart(cum, lowBits, i), Times(|cum|, lowBits) + MarkPos(cum, lowBits, i)))
  }

  lemma {:induction false} ShiftedMonotone(a: nat, b: nat, k: nat)
    requires a <= b
    ensures Shifted(a, k) <= Shifted(b, k)
  {
    if k > 0 {
      ShiftedMonotone(a / 2, b / 2, k - 1);
    }
  }

  // ---------- The low bits ----------

  function LowSeq(cum: seq<nat>, lowBits: nat, n: nat): (r: seq<bool>)
    requires n <= |cum|
    ensures |r| == Times(n, lowBits)
  {
    TimesStep(0, lowBits);
    if n == 0 then []
    else
      TimesStep(n - 1, lowBits);
      LowSeq(cum, lowBits, n - 1) + ToBits(cum[n - 1], lowBits)
  }

  lemma {:induction false} LowSeqPrefix(cum: seq<nat>, lowBits: nat, m: nat, n: nat)
    requires m <= n <= |cum|
    ensures |LowSeq(cum, lowBits, m)| <= |LowSeq(cum, lowBits, n)|
    ensures LowSeq(cum, lowBits, n)[..|LowSeq(cum, lowBits, m)|] == LowSeq(cum, lowBits, m)
    decreases n
  {
    if m < n {
      LowSeqPrefix(cum, lowBits, m, n - 1);
      hide ToBits;
    }
  }

  // What a half-packed buffer stands for; a full word may still wait.
  ghost predicate Packs(front: seq<Byte>, word: Word, pos: nat, bits: seq<bool>) {
    && pos <= 64
    && |bits| == 8 * |front| + pos
    && Stream(front) == bits[..8 * |front|]
    && Partial(word, bits[8 * |front|..])
  }

  lemma PacksParts(front: seq<Byte>, word: Word, pos: nat, bits: seq<bool>)
    requires Packs(front, word, pos, bits)
    ensures pos <= 64 && |bits| == 8 * |front| + pos
    ensures Stream(front) == bits[..8 * |front|] && Partial(word, bits[8 * |front|..])
  {
  }

  lemma PacksIs(front: seq<Byte>, word: Word, pos: nat, bits: seq<bool>, head: seq<bool>, rest: seq<bool>)
    requires pos <= 64 && |bits| == 8 * |front| + pos && |head| == 8 * |front|
    requires Stream(front) == head && bits == head + rest && Partial(word, rest)
    ensures Packs(front, word, pos, bits)
  {
    hide Stream, Partial;
    assert bits[..8 * |front|] == head && bits[8 * |front|..] == rest;
  }

  lemma PackFits(front: seq<Byte>, word: Word, pos: nat, bits: seq<bool>, v: Word, n: nat)
    requires Packs(front, word, pos, bits) && pos + n <= 64 && Partial(v, v[..n])
    ensures Packs(front, Or(word, Shl(v, pos)), pos + n, bits + v[..n])
  {
    hide *;
    PacksParts(front, word, pos, bits);
    var k := 8 * |front|;
    OrFits(word, bits[k..], v, n);
    Regroup(bits, k, v, n, n);
    assert v[n..n] == [];
    assert bits[..k] + (bits[k..] + v[..n]) + [] == bits[..k] + (bits[k..] + v[..n]);
    PacksIs(front, Or(word, Shl(v, pos)), pos + n, bits + v[..n], bits[..k], bits[k..] + v[..n]);
  }

  lemma PackSplits(front: seq<Byte>, word: Word, pos: nat, bits: seq<bool>, v: Word, n: nat)
    requires Packs(front, word, pos, bits) && pos <= 64 < pos + n && n <= 64 && Partial(v, v[..n])
    ensures Packs(front + WordBytes(Or(word, Shl(v, pos))), Shr(v, 64 - pos), n - (64 - pos), bits + v[..n])
  {
    hide *;
    PacksParts(front, word, pos, bits);
    var fit, k := 64 - pos, 8 * |front|;
    var done := bits[k..];
    OrSplits(word, done, v, n);
    var full := Or(word, Shl(v, pos));
    StreamAppend(front, WordBytes(full));
    Regroup(bits, k, v, fit, n);
    PacksIs(front + WordBytes(full), Shr(v, fit), n - fit, bits + v[..n], bits[..k] + (done + v[..fit]), v[fit..n]);
  }

  lemma PackEnds(front: seq<Byte>, word: Word, pos: nat, bits: seq<bool>)
    requires Packs(front, word, pos, bits)
    ensures var out := front + WordBytes(word)[..(pos + 7) / 8];
            && |out| == (|bits| + 7) / 8
            && |Stream(out)| >= |bits| && Stream(out)[..|bits|] == bits
            && forall i :: |bits| <= i < 8 * |out| ==> !Stream(out)[i]
  {
    hide Stream, WordBytes, ByteBits;
    var k := (pos + 7) / 8;
    StreamPrefix(WordBytes(word), k);
    StreamAppend(front, WordBytes(word)[..k]);
    var head, rest := bits[..8 * |front|], bits[8 * |front|..];
    TailPads(head, rest, word, k);
    assert bits == head + rest;
  }

  // ---------- Reading low bits ----------

  // Up to three bytes; the third only if the value reaches past the first.
  function LowWord(data: seq<Byte>, byteIdx: nat, bitIdx: nat, lowBits: nat): Word {
    if byteIdx + 8 <= |data| then LoadWord(data, byteIdx)
    else And(LoadWord(data, byteIdx), Mask(if lowBits + bitIdx > 8 then 24 else 16))
  }

  function ReadEFLowBits(data: seq<Byte>, element: nat, lowBits: nat): nat {
    if lowBits == 0 then 0
    else
      var bitPos := Times(element, lowBits);
      if bitPos / 8 >= |data| then 0
      else ToNat(And(Shr(LowWord(data, bitPos / 8, bitPos % 8, lowBits), bitPos % 8), Mask(lowBits))[..16])
  }

  lemma LowWordBits(data: seq<Byte>, bitPos: nat, lowBits: nat)
    requires 0 < lowBits <= 16
    ensures var w := And(Shr(LowWord(data, bitPos / 8, bitPos % 8, lowBits), bitPos % 8), Mask(lowBits));
            forall i :: 0 <= i < 16 ==> w[i] == (i < lowBits && StreamBit(data, bitPos + i))
  {
    hide StreamBit;
    var byteIdx, bitIdx := bitPos / 8, bitPos % 8;
    var w := And(Shr(LowWord(data, byteIdx, bitIdx, lowBits), bitIdx), Mask(lowBits));
    forall i | 0 <= i < 16 ensures w[i] == (i < lowBits && StreamBit(data, bitPos + i)) {
      if i < lowBits {
        assert LoadWord(data, byteIdx)[i + bitIdx] == StreamBit(data, 8 * byteIdx + (i + bitIdx));
        assert 8 * byteIdx + (i + bitIdx) == bitPos + i;
      }
    }
  }

  lemma {:induction false} ToNatPadded(bits: seq<bool>, n: nat)
    requires n <= |bits| && forall i :: n <= i < |bits| ==> !bits[i]
    ensures ToNat(bits) == ToNat(bits[..n])
  {
    if |bits| > 0 {
      if n > 0 {
        ToNatPadded(bits[1..], n - 1);
        assert bits[..n][1..] == bits[1..][..n - 1];
      } else {
        ToNatPadded(bits[1..], 0);
      }
    }
  }

  lemma PastEnd(data: seq<Byte>, pos: nat, n: nat)
    requires pos / 8 >= |data|
    ensures ToNat(BitsAt(data, pos, n)) == 0
  {
    ToNatPadded(BitsAt(data, pos, n), 0);
    assert BitsAt(data, pos, n)[..0] == [];
  }

  // The value's low bits, wherever they lie; past the end there are zeros.
  lemma ReadLow(data: seq<Byte>, element: nat, lowBits: nat)
    requires lowBits <= 16
    ensures ReadEFLowBits(data, element, lowBits) == ToNat(BitsAt(data, Times(element, lowBits), lowBits))
  {
    var bitPos := Times(element, lowBits);
    hide Times, LowWord, StreamBit, ToNat, ByteBits;
    if lowBits == 0 {
      assert BitsAt(data, bitPos, 0) == [];
      EmptyIsZero();
    } else if bitPos / 8 >= |data| {
      PastEnd(data, bitPos, lowBits);
    } else {
      LowWordBits(data, bitPos, lowBits);
      LowBitsValue(And(Shr(LowWord(data, bitPos / 8, bitPos % 8, lowBits), bitPos % 8), Mask(lowBits)),
                   BitsAt(data, bitPos, lowBits));
    }
  }

  lemma EmptyIsZero()
    ensures ToNat([]) == 0
  {
  }

  lemma LowBitsValue(w: Word, bits: seq<bool>)
    requires |bits| <= 16 && forall i :: 0 <= i < 16 ==> w[i] == (i < |bits| && bits[i])
    ensures ToNat(w[..16]) == ToNat(bits)
  {
    hide ToNat;
    ToNatPadded(w[..16], |bits|);
    assert w[..16][..|bits|] == bits;
  }

  // ---------- Scanning for a mark ----------

  // Eight bytes; bytes past the end read as 0xFF so that a scan always stops.
  function LoadWindow64Safe(data: seq<Byte>, byteIdx: nat): (w: Word)
    ensures forall i :: 0 <= i < 64 ==> w[i] == (8 * byteIdx + i >= 8 * |data| || StreamBit(data, 8 * byteIdx + i))
  {
    seq(64, i requires 0 <= i < 64 => 8 * byteIdx + i >= 8 * |data| || StreamBit(data, 8 * byteIdx + i))
  }

  // The bits from absolute position `at` on, up to the end of the window.
  function Window(data: seq<Byte>, at: nat): Word {
    Shr(if at / 8 + 8 <= |data| then LoadWord(data, at / 8) else LoadWindow64Safe(data, at / 8), at % 8)
  }

  lemma WindowBits(data: seq<Byte>, at: nat, i: nat)
    requires i < 64 - at % 8 && at + i < 8 * |data|
    ensures Window(data, at)[i] == StreamBit(data, at + i)
  {
    hide StreamBit;
    assert 8 * (at / 8) + (at % 8 + i) == at + i;
  }

  lemma WindowTop(data: seq<Byte>, at: nat, i: nat)
    requires 64 - at % 8 <= i < 64
    ensures !Window(data, at)[i]
  {
  }

  lemma BitInside(data: seq<Byte>, p: nat)
    requires StreamBit(data, p)
    ensures p < 8 * |data|
  {
  }

  lemma MarkAt(data: seq<Byte>, from: nat, to: nat)
    requires NextMark(data, from, to)
    ensures from <= to < 8 * |data| && StreamBit(data, to)
  {
    BitInside(data, to);
  }

  lemma NoMarkAt(data: seq<Byte>, from: nat, to: nat, p: nat)
    requires NextMark(data, from, to) && from <= p < to
    ensures !StreamBit(data, p)
  {
  }

  lemma WindowNear(data: seq<Byte>, at: nat, to: nat)
    requires NextMark(data, at, to) && at <= to < at + (64 - at % 8)
    ensures Window(data, at)[to - at] && forall i :: 0 <= i < to - at ==> !Window(data, at)[i]
  {
    hide *;
    MarkAt(data, at, to);
    WindowBits(data, at, to - at);
    forall i | 0 <= i < to - at ensures !Window(data, at)[i] {
      WindowBits(data, at, i);
      NoMarkAt(data, at, to, at + i);
    }
  }

  lemma WindowFar(data: seq<Byte>, at: nat, to: nat)
    requires NextMark(data, at, to) && to >= at + (64 - at % 8)
    ensures Window(data, at) == ZERO
  {
    hide *;
    MarkAt(data, at, to);
    var w := Window(data, at);
    forall i | 0 <= i < 64 ensures !w[i] {
      if i < 64 - at % 8 {
        WindowBits(data, at, i);
        NoMarkAt(data, at, to, at + i);
      } else {
        WindowTop(data, at, i);
      }
    }
    IsZero(w);
  }

  lemma IsZero(w: Word)
    requires forall i :: 0 <= i < 64 ==> !w[i]
    ensures w == ZERO
  {
  }

  lemma FirstOne(w: Word, k: nat)
    requires k < 64 && w[k] && forall i :: 0 <= i < k ==> !w[i]
    ensures TrailingZeros(w) == k && w != ZERO
  {
  }

  lemma Skipped(data: seq<Byte>, from: nat, mid: nat, to: nat)
    requires NextMark(data, from, to) && from <= mid <= to
    ensures NextMark(data, mid, to) && to / 8 < |data|
  {
    BitInside(data, to);
  }

  // An empty window holds no mark; a non-empty one has the next mark as its lowest bit.
  lemma WindowMark(data: seq<Byte>, at: nat, to: nat)
    requires NextMark(data, at, to)
    ensures at / 8 < |data|
    ensures Window(data, at) == ZERO ==> NextMark(data, at + (64 - at % 8), to)
    ensures Window(data, at) != ZERO ==> at + TrailingZeros(Window(data, at)) == to
  {
    hide StreamBit, Window, TrailingZeros;
    MarkAt(data, at, to);
    if to < at + (64 - at % 8) {
      WindowNear(data, at, to);
      FirstOne(Window(data, at), to - at);
    } else {
      WindowFar(data, at, to);
      Skipped(data, at, at + (64 - at % 8), to);
    }
  }

  /** Moves past the next mark.  If one lies at `target`, the high part grows by the
      gap; without one the scan stops at the end of the data. */
  method ScanMark(data: seq<Byte>, lowBitsTotal: nat, start: nat, high: nat, ghost target: nat, ghost marked: bool)
    returns (bitPos: nat, currentHigh: nat)
    requires high < 0x1_0000
    requires marked ==> NextMark(data, lowBitsTotal + start, lowBitsTotal + target)
    ensures currentHigh < 0x1_0000
    ensures marked ==> bitPos == target + 1 && currentHigh == U16(high + (target - start))
  {
    hide *;
    bitPos, currentHigh := start, high;
    U16Small(high);
    while true
      invariant bitPos >= start && currentHigh < 0x1_0000
      invariant currentHigh == U16(high + (bitPos - start))
      invariant marked ==> NextMark(data, lowBitsTotal + bitPos, lowBitsTotal + target)
      decreases 8 * |data| + 64 - (lowBitsTotal + bitPos)
    {
      var absBitPos := lowBitsTotal + bitPos;
      if marked {
        MarkAt(data, absBitPos, lowBitsTotal + target);
        WindowMark(data, absBitPos, lowBitsTotal + target);
      }
      if absBitPos / 8 >= |data| {
        break;
      }
      var window := Window(data, absBitPos);
      if window == ZERO {
        var bitsAvailable := 64 - absBitPos % 8;
        U16Add(high + (bitPos - start), bitsAvailable);
        currentHigh := U16(currentHigh + bitsAvailable);
        bitPos := bitPos + bitsAvailable;
        continue;
      }
      var zeros := TrailingZeros(window);
      U16Add(high + (bitPos - start), zeros);
      currentHigh := U16(currentHigh + zeros);
      bitPos := bitPos + zeros + 1;
      break;
    }
  }

  // ---------- Decoding a range ----------

  // The high part reached before value i.
  function HighBefore(cum: seq<nat>, lowBits: nat, i: nat): nat
    requires i <= |cum|
  {
    if i == 0 then 0 else Shifted(cum[i - 1], lowBits)
  }

  lemma {:induction false} ShiftedBound(v: nat, k: nat)
    ensures Shifted(v, k) <= v
  {
    if k > 0 {
      ShiftedBound(v / 2, k - 1);
    }
  }

  // How the positions of neighbouring values hang together.
  lemma Positions(cum: seq<nat>, lowBits: nat, i: nat)
    requires i < |cum| && (i > 0 ==> cum[i - 1] <= cum[i])
    ensures MarkPos(cum, lowBits, i) == i + HighBefore(cum, lowBits, i + 1)
    ensures ScanStart(cum, lowBits, i) == i + HighBefore(cum, lowBits, i)
    ensures ScanStart(cum, lowBits, i + 1) == MarkPos(cum, lowBits, i) + 1
    ensures HighBefore(cum, lowBits, i) <= HighBefore(cum, lowBits, i + 1) == Shifted(cum[i], lowBits) <= cum[i]
  {
    ShiftedBound(cum[i], lowBits);
    if i > 0 { ShiftedMonotone(cum[i - 1], cum[i], lowBits); }
    hide Shifted;
  }

  lemma EncodesAt(data: seq<Byte>, cum: seq<nat>, lowBits: nat, i: nat)
    requires Encodes(data, cum, lowBits) && i < |cum|
    ensures BitsAt(data, Times(i, lowBits), lowBits) == ToBits(cum[i], lowBits)
    ensures NextMark(data, Times(|cum|, lowBits) + ScanStart(cum, lowBits, i), Times(|cum|, lowBits) + MarkPos(cum, lowBits, i))
  {
  }

  // A value's parts recombine to it.
  lemma Recombines(data: seq<Byte>, cum: seq<nat>, lowBits: nat, i: nat)
    requires Encodes(data, cum, lowBits) && i < |cum| && lowBits <= 16 && cum[i] < 0x1_0000
    ensures U16(Combined(Shifted(cum[i], lowBits), lowBits, ReadEFLowBits(data, i, lowBits))) == cum[i]
  {
    hide *;
    EncodesAt(data, cum, lowBits, i);
    ReadLow(data, i, lowBits);
    CombinedIs(cum[i], lowBits);
    U16Small(cum[i]);
  }

  // The inputs of a segment decode as a well-formed block gives them.
  ghost predicate Decodable(data: seq<Byte>, cum: seq<nat>, lowBits: nat, first: nat, last: nat, startBit: nat) {
    && Encodes(data, cum, lowBits)
    && first <= last < |cum|
    && startBit == ScanStart(cum, lowBits, first)
    && (forall i :: 0 <= i < |cum| ==> cum[i] < 0x1_0000)
    && (forall i :: 0 < i < |cum| ==> cum[i - 1] <= cum[i])
  }

  // The state before value `elem`.
  ghost predicate ScanAt(cum: seq<nat>, lowBits: nat, elem: nat, bitPos: nat, currentHigh: nat) {
    elem <= |cum| && bitPos == ScanStart(cum, lowBits, elem) && currentHigh == HighBefore(cum, lowBits, elem)
  }

  lemma DecodableFacts(data: seq<Byte>, cum: seq<nat>, lowBits: nat, first: nat, last: nat, startBit: nat)
    requires Decodable(data, cum, lowBits, first, last, startBit)
    ensures Encodes(data, cum, lowBits) && first <= last < |cum| && startBit == ScanStart(cum, lowBits, first)
    ensures forall i :: 0 <= i < |cum| ==> cum[i] < 0x1_0000
    ensures forall i :: 0 < i < |cum| ==> cum[i - 1] <= cum[i]
  {
  }

  lemma ScanAtIs(cum: seq<nat>, lowBits: nat, elem: nat, bitPos: nat, currentHigh: nat)
    ensures ScanAt(cum, lowBits, elem, bitPos, currentHigh) <==>
      elem <= |cum| && bitPos == ScanStart(cum, lowBits, elem) && currentHigh == HighBefore(cum, lowBits, elem)
  {
  }

  // Where a segment's scan starts, from its checkpoint.
  function StartHigh(first: nat, startBit: nat): (r: nat)
    ensures r < 0x1_0000
  {
    if first > 0 && startBit >= first then U16(startBit - first) else 0
  }

  lemma ScanBegins(data: seq<Byte>, cum: seq<nat>, lowBits: nat, first: nat, last: nat, startBit: nat)
    requires Decodable(data, cum, lowBits, first, last, startBit) && lowBits <= 16
    ensures ScanAt(cum, lowBits, first, startBit, StartHigh(first, startBit))
  {
    hide *;
    DecodableFacts(data, cum, lowBits, first, last, startBit);
    Positions(cum, lowBits, first);
    if first > 0 {
      Positions(cum, lowBits, first - 1);
      U16Small(startBit - first);
    }
    StartHighIs(cum, lowBits, first, startBit);
    ScanAtIs(cum, lowBits, first, startBit, StartHigh(first, startBit));
  }

  lemma StartHighIs(cum: seq<nat>, lowBits: nat, first: nat, startBit: nat)
    ensures first > 0 && startBit >= first ==> StartHigh(first, startBit) == U16(startBit - first)
    ensures first == 0 ==> StartHigh(first, startBit) == 0 == HighBefore(cum, lowBits, 0)
  {
  }

  /** Decodes the values startElement .. endElement, starting at their checkpoint.
      Whatever the data, it terminates and stays within it. */
  method DecodeEFRangeInline(efData: seq<Byte>, numBuckets: nat, keysInBlock: nat, startElement: nat, endElement: nat,
                             startBit: nat, out: array<nat>, ghost cum: seq<nat>)
    returns (count: nat)
    requires numBuckets <= out.Length && ComputeEFLowBits(numBuckets, keysInBlock) <= 16
    modifies out
    ensures |cum| == numBuckets && |efData| >= 8
            && Decodable(efData, cum, ComputeEFLowBits(numBuckets, keysInBlock), startElement, endElement, startBit) ==>
              && count == endElement - startElement + 1
              && forall i :: startElement <= i <= endElement ==> out[i] == cum[i]
    ensures startElement <= endElement && startElement < numBuckets && |efData| >= 8 ==> count > 0
    ensures forall i :: 0 <= i < out.Length ==> out[i] == old(out[i]) || out[i] < 0x1_0000
  {
    hide *;
    var lowBits := ComputeEFLowBits(numBuckets, keysInBlock);
    ghost var ok := |cum| == numBuckets && |efData| >= 8
                    && Decodable(efData, cum, lowBits, startElement, endElement, startBit);
    if ok {
      LastInside(efData, cum, lowBits, startElement, endElement, startBit);
      ScanBegins(efData, cum, lowBits, startElement, endElement, startBit);
    }
    if startElement > endElement || startElement >= numBuckets {
      return 0;
    }
    var last := if endElement >= numBuckets then numBuckets - 1 else endElement;
    if |efData| < 8 {
      return 0;
    }
    var lowBitsTotal := Times(numBuckets, lowBits);
    count := 0;
    var bitPos := startBit;
    var currentHigh := StartHigh(startElement, startBit);
    for elem := startElement to last + 1
      invariant count == elem - startElement && currentHigh < 0x1_0000
      invariant ok ==> ScanAt(cum, lowBits, elem, bitPos, currentHigh)
      invariant ok ==> forall i :: startElement <= i < elem ==> out[i] == cum[i]
      invariant forall i :: 0 <= i < out.Length ==> out[i] == old(out[i]) || out[i] < 0x1_0000
    {
      var lowVal := ReadEFLowBits(efData, elem, lowBits);
      if ok { ScanSteps(efData, cum, lowBits, startElement, endElement, startBit, elem, bitPos, currentHigh); }
      bitPos, currentHigh := ScanMark(efData, lowBitsTotal, bitPos, currentHigh, if ok then MarkPos(cum, lowBits, elem) else 0, ok);
      out[elem] := U16(Combined(currentHigh, lowBits, lowVal));
      count := count + 1;
    }
  }

  lemma LastInside(data: seq<Byte>, cum: seq<nat>, lowBits: nat, first: nat, last: nat, startBit: nat)
    requires Decodable(data, cum, lowBits, first, last, startBit)
    ensures first <= last < |cum|
  {
  }

  // One value further.
  lemma ScanSteps(data: seq<Byte>, cum: seq<nat>, lowBits: nat, first: nat, last: nat, startBit: nat,
                  i: nat, bitPos: nat, currentHigh: nat)
    requires Decodable(data, cum, lowBits, first, last, startBit) && lowBits <= 16
    requires i < |cum| && ScanAt(cum, lowBits, i, bitPos, currentHigh)
    ensures NextMark(data, Times(|cum|, lowBits) + bitPos, Times(|cum|, lowBits) + MarkPos(cum, lowBits, i))
    ensures bitPos <= MarkPos(cum, lowBits, i)
    ensures var high := U16(currentHigh + (MarkPos(cum, lowBits, i) - bitPos));
            && ScanAt(cum, lowBits, i + 1, MarkPos(cum, lowBits, i) + 1, high)
            && U16(Combined(high, lowBits, ReadEFLowBits(data, i, lowBits))) == cum[i]
  {
    hide *;
    DecodableFacts(data, cum, lowBits, first, last, startBit);
    ScanAtIs(cum, lowBits, i, bitPos, currentHigh);
    Positions(cum, lowBits, i);
    EncodesAt(data, cum, lowBits, i);
    Recombines(data, cum, lowBits, i);
    U16Small(Shifted(cum[i], lowBits));
    ScanAtIs(cum, lowBits, i + 1, MarkPos(cum, lowBits, i) + 1, Shifted(cum[i], lowBits));
  }

  // highVal << lowBits | lowVal of the value before a segment.
  function BeforeSegment(efData: seq<Byte>, segmentStart: nat, startBit: nat, lowBits: nat): (v: nat)
    requires segmentStart > 0
    ensures v < 0x1_0000
  {
    var highVal := if startBit >= segmentStart then startBit - segmentStart else 0;
    U16(Combined(highVal, lowBits, ReadEFLowBits(efData, segmentStart - 1, lowBits)))
  }

  /** The value just before a segment follows from its checkpoint alone. */
  lemma ValueBeforeSegment(data: seq<Byte>, cum: seq<nat>, lowBits: nat, first: nat, last: nat, startBit: nat)
    requires Decodable(data, cum, lowBits, first, last, startBit) && lowBits <= 16 && first > 0
    ensures BeforeSegment(data, first, startBit, lowBits) == cum[first - 1]
  {
    hide *;
    DecodableFacts(data, cum, lowBits, first, last, startBit);
    Positions(cum, lowBits, first - 1);
    Recombines(data, cum, lowBits, first - 1);
    BeforeSegmentIs(data, first, startBit, lowBits);
  }

  lemma BeforeSegmentIs(efData: seq<Byte>, segmentStart: nat, startBit: nat, lowBits: nat)
    requires startBit >= segmentStart > 0
    ensures BeforeSegment(efData, segmentStart, startBit, lowBits)
         == U16(Combined(startBit - segmentStart, lowBits, ReadEFLowBits(efData, segmentStart - 1, lowBits)))
  {
  }

  // ---------- Encoding ----------

  // Value i of the first n left a mark at position q among the high bits.
  ghost predicate Marked(cum: seq<nat>, lowBits: nat, n: nat, q: nat)
    requires n <= |cum|
  {
    exists i :: 0 <= i < n && MarkPos(cum, lowBits, i) == q
  }

  // The low bits, then the marks of the first n values.
  ghost predicate Coded(data: seq<Byte>, cum: seq<nat>, lowBits: nat, n: nat)
    requires n <= |cum|
  {
    var base := Times(|cum|, lowBits);
    forall p: nat :: p < 8 * |data| ==>
      StreamBit(data, p) == (if p < base then LowSeq(cum, lowBits, |cum|)[p] else Marked(cum, lowBits, n, p - base))
  }

  lemma {:induction false} MarksIncrease(cum: seq<nat>, lowBits: nat, i: nat, j: nat)
    requires i < j < |cum| && forall k :: 0 < k < |cum| ==> cum[k - 1] <= cum[k]
    ensures MarkPos(cum, lowBits, i) < MarkPos(cum, lowBits, j)
    decreases j
  {
    if i < j - 1 {
      MarksIncrease(cum, lowBits, i, j - 1);
    }
    ShiftedMonotone(cum[j - 1], cum[j], lowBits);
  }

  lemma NotMarked(cum: seq<nat>, lowBits: nat, i: nat, q: nat)
    requires i < |cum| && forall k :: 0 < k < |cum| ==> cum[k - 1] <= cum[k]
    requires ScanStart(cum, lowBits, i) <= q < MarkPos(cum, lowBits, i)
    ensures !Marked(cum, lowBits, |cum|, q)
  {
    hide Shifted;
    if Marked(cum, lowBits, |cum|, q) {
      var k :| 0 <= k < |cum| && MarkPos(cum, lowBits, k) == q;
      if k > i {
        MarksIncrease(cum, lowBits, i, k);
      } else if k < i - 1 {
        MarksIncrease(cum, lowBits, k, i - 1);
      }
    }
  }

  // The low bits of value i are where the decoder looks for them.
  lemma LowSeqAt(cum: seq<nat>, lowBits: nat, i: nat)
    requires i < |cum|
    ensures Times(i, lowBits) + lowBits <= Times(|cum|, lowBits)
    ensures LowSeq(cum, lowBits, |cum|)[Times(i, lowBits)..Times(i, lowBits) + lowBits] == ToBits(cum[i], lowBits)
  {
    TimesStep(i, lowBits);
    LowSeqPrefix(cum, lowBits, i + 1, |cum|);
    hide Times, ToBits;
    var all := LowSeq(cum, lowBits, |cum|);
    var upTo := LowSeq(cum, lowBits, i + 1);
    assert all[Times(i, lowBits)..Times(i, lowBits) + lowBits] == all[..|upTo|][Times(i, lowBits)..];
    assert upTo == LowSeq(cum, lowBits, i) + ToBits(cum[i], lowBits);
  }

  lemma CodedLow(data: seq<Byte>, cum: seq<nat>, lowBits: nat, i: nat)
    requires Coded(data, cum, lowBits, |cum|) && Times(|cum|, lowBits) <= 8 * |data| && i < |cum|
    ensures BitsAt(data, Times(i, lowBits), lowBits) == ToBits(cum[i], lowBits)
  {
    hide *;
    LowSeqAt(cum, lowBits, i);
    var at := Times(i, lowBits);
    var low := LowSeq(cum, lowBits, |cum|);
    forall k | 0 <= k < lowBits ensures BitsAt(data, at, lowBits)[k] == ToBits(cum[i], lowBits)[k] {
      CodedBit(data, cum, lowBits, |cum|, at + k);
      assert low[at..at + lowBits][k] == low[at + k];
    }
  }

  lemma CodedBit(data: seq<Byte>, cum: seq<nat>, lowBits: nat, n: nat, p: nat)
    requires n <= |cum| && Coded(data, cum, lowBits, n) && p < Times(|cum|, lowBits) <= 8 * |data|
    ensures StreamBit(data, p) == LowSeq(cum, lowBits, |cum|)[p]
  {
    hide Times, LowSeq, StreamBit, Marked;
  }

  lemma CodedMark(data: seq<Byte>, cum: seq<nat>, lowBits: nat, i: nat)
    requires Coded(data, cum, lowBits, |cum|) && i < |cum| && forall k :: 0 < k < |cum| ==> cum[k - 1] <= cum[k]
    requires Times(|cum|, lowBits) + MarkPos(cum, lowBits, i) < 8 * |data|
    ensures NextMark(data, Times(|cum|, lowBits) + ScanStart(cum, lowBits, i), Times(|cum|, lowBits) + MarkPos(cum, lowBits, i))
  {
    var base := Times(|cum|, lowBits);
    Positions(cum, lowBits, i);
    var from, to := base + ScanStart(cum, lowBits, i), base + MarkPos(cum, lowBits, i);
    hide Times, LowSeq, StreamBit, MarkPos, ScanStart, HighBefore;
    assert Marked(cum, lowBits, |cum|, to - base);
    assert StreamBit(data, to);
    forall p | from <= p < to ensures !StreamBit(data, p) {
      NotMarked(cum, lowBits, i, p - base);
    }
  }

  // Room for the last mark.
  lemma LastMarkFits(cum: seq<nat>, U: nat, lowBits: nat, i: nat)
    requires i < |cum| && cum[i] <= U && lowBits < 16
    ensures MarkPos(cum, lowBits, i) < |cum| + HighBound(U, lowBits)
  {
    ShiftedMonotone(cum[i], U, lowBits);
  }

  lemma CodedEncodes(data: seq<Byte>, cum: seq<nat>, U: nat, lowBits: nat)
    requires Coded(data, cum, lowBits, |cum|) && lowBits < 16
    requires (forall k :: 0 < k < |cum| ==> cum[k - 1] <= cum[k]) && forall k :: 0 <= k < |cum| ==> cum[k] <= U
    requires Times(|cum|, lowBits) + (|cum| + HighBound(U, lowBits)) <= 8 * |data|
    ensures Encodes(data, cum, lowBits)
  {
    hide Coded, Times, NextMark, MarkPos, ScanStart, HighBound, BitsAt, ToBits;
    forall i | 0 <= i < |cum|
      ensures BitsAt(data, Times(i, lowBits), lowBits) == ToBits(cum[i], lowBits)
      ensures NextMark(data, Times(|cum|, lowBits) + ScanStart(cum, lowBits, i), Times(|cum|, lowBits) + MarkPos(cum, lowBits, i))
    {
      CodedLow(data, cum, lowBits, i);
      LastMarkFits(cum, U, lowBits, i);
      CodedMark(data, cum, lowBits, i);
    }
  }

  // What follows the code does not disturb it.
  lemma EncodesExtends(data: seq<Byte>, more: seq<Byte>, cum: seq<nat>, lowBits: nat)
    requires Encodes(data, cum, lowBits) && forall i :: 0 <= i < |cum| ==> Times(i, lowBits) + lowBits <= 8 * |data|
    ensures Encodes(data + more, cum, lowBits)
  {
    hide Times, MarkPos, ScanStart, ToBits;
    forall p: nat | p < 8 * |data| ensures StreamBit(data + more, p) == StreamBit(data, p) {
      assert (data + more)[p / 8] == data[p / 8];
    }
    forall i | 0 <= i < |cum| ensures BitsAt(data + more, Times(i, lowBits), lowBits) == ToBits(cum[i], lowBits) {
      EncodesAt(data, cum, lowBits, i);
      assert BitsAt(data + more, Times(i, lowBits), lowBits) == BitsAt(data, Times(i, lowBits), lowBits);
    }
    forall i | 0 <= i < |cum|
      ensures NextMark(data + more, Times(|cum|, lowBits) + ScanStart(cum, lowBits, i), Times(|cum|, lowBits) + MarkPos(cum, lowBits, i))
    {
      EncodesAt(data, cum, lowBits, i);
      BitInside(data, Times(|cum|, lowBits) + MarkPos(cum, lowBits, i));
    }
  }

  // The first bytePos bytes are packed, the word is next, the rest is still zero.
  ghost predicate Packing(buf: seq<Byte>, word: Word, pos: nat, bytePos: nat, bits: seq<bool>) {
    && bytePos <= |buf|
    && Packs(buf[..bytePos], word, pos, bits)
    && forall k :: bytePos <= k < |buf| ==> buf[k] == 0
  }

  lemma PackingStarts(buf: seq<Byte>)
    requires forall k :: 0 <= k < |buf| ==> buf[k] == 0
    ensures Packing(buf, ZERO, 0, 0, [])
  {
    assert buf[..0] == [];
  }

  lemma PackingFits(buf: seq<Byte>, word: Word, pos: nat, bytePos: nat, bits: seq<bool>, v: Word, n: nat)
    requires Packing(buf, word, pos, bytePos, bits) && pos + n <= 64 && Partial(v, v[..n])
    ensures Packing(buf, Or(word, Shl(v, pos)), pos + n, bytePos, bits + v[..n])
  {
    PackFits(buf[..bytePos], word, pos, bits, v, n);
    hide Packs, Partial;
  }

  lemma PackingLength(buf: seq<Byte>, word: Word, pos: nat, bytePos: nat, bits: seq<bool>)
    requires Packing(buf, word, pos, bytePos, bits)
    ensures pos <= 64 && |bits| == 8 * bytePos + pos && bytePos <= |buf|
  {
  }

  lemma PackingSplits(buf: seq<Byte>, after: seq<Byte>, word: Word, pos: nat, bytePos: nat, bits: seq<bool>, v: Word, n: nat)
    requires Packing(buf, word, pos, bytePos, bits) && pos <= 64 < pos + n && n <= 64 && Partial(v, v[..n])
    requires Stored(buf, after, bytePos, WordBytes(Or(word, Shl(v, pos))))
    ensures Packing(after, Shr(v, 64 - pos), n - (64 - pos), bytePos + 8, bits + v[..n])
  {
    PackSplits(buf[..bytePos], word, pos, bits, v, n);
    hide Packs, Partial, WordBytes, Or, Shl, Shr;
    assert after[..bytePos + 8] == buf[..bytePos] + WordBytes(Or(word, Shl(v, pos)));
  }

  // The last, partly filled word.
  lemma PackingEnds(buf: seq<Byte>, after: seq<Byte>, word: Word, pos: nat, bytePos: nat, bits: seq<bool>)
    requires Packing(buf, word, pos, bytePos, bits) && pos <= 64
    requires Stored(buf, after, bytePos, WordBytes(word)[..(pos + 7) / 8])
    ensures |after| == |buf|
    ensures forall p: nat :: p < 8 * |after| ==> StreamBit(after, p) == (p < |bits| && bits[p])
  {
    var out := buf[..bytePos] + WordBytes(word)[..(pos + 7) / 8];
    PackEnds(buf[..bytePos], word, pos, bits);
    hide Packs, WordBytes, Stream, ByteBits;
    forall p: nat | p < 8 * |after| ensures StreamBit(after, p) == (p < |bits| && bits[p]) {
      if p < 8 * |out| {
        assert after[p / 8] == out[p / 8];
        assert Stream(out)[p] == ByteBits(out[p / 8])[p % 8];
        assert p < |bits| ==> bits[p] == Stream(out)[..|bits|][p];
      } else {
        assert after[p / 8] == 0;
        ZeroByte(p % 8);
      }
    }
  }

  lemma ZeroByte(i: nat)
    requires i < 8
    ensures !ByteBits(0)[i]
  {
    HighBitsClear(0, 0, 8);
  }

  // The low bits of one value, as a word.
  function LowValue(v: nat, lowBits: nat): (w: Word)
    requires lowBits <= 64
    ensures Partial(w, w[..lowBits]) && w[..lowBits] == ToBits(v, lowBits)
  {
    BitPrefix(v, lowBits, 64);
    MaskKeeps(ToBits(v, 64), lowBits);
    And(ToBits(v, 64), Mask(lowBits))
  }

  /** Packs the low bits of all values side by side, word by word, into a zeroed
      buffer. */
  method PackLowBits(b: array<Byte>, cum: seq<nat>, lowBits: nat)
    requires 0 < lowBits <= 16 && Times(|cum|, lowBits) <= 8 * b.Length
    requires forall k :: 0 <= k < b.Length ==> b[k] == 0
    modifies b
    ensures Coded(b[..], cum, lowBits, 0)
  {
    hide *;
    var word: Word, wordBitPos: nat, bytePos: nat := ZERO, 0, 0;
    PackingStarts(b[..]);
    LowSeqStarts(cum, lowBits);
    for i := 0 to |cum|
      invariant Packing(b[..], word, wordBitPos, bytePos, LowSeq(cum, lowBits, i))
    {
      var lowVal := LowValue(cum[i], lowBits);
      ghost var bits := LowSeq(cum, lowBits, i);
      PackingLength(b[..], word, wordBitPos, bytePos, bits);
      LowSeqStep(cum, lowBits, i);
      if wordBitPos + lowBits <= 64 {
        PackingFits(b[..], word, wordBitPos, bytePos, bits, lowVal, lowBits);
        word := Or(word, Shl(lowVal, wordBitPos));
        wordBitPos := wordBitPos + lowBits;
      } else {
        var bitsInCurrent := 64 - wordBitPos;
        ghost var before, was := b[..], word;
        word := Or(word, Shl(lowVal, wordBitPos));
        Store(b, bytePos, WordBytes(word));
        PackingSplits(before, b[..], was, wordBitPos, bytePos, bits, lowVal, lowBits);
        bytePos := bytePos + 8;
        word := Shr(lowVal, bitsInCurrent);
        wordBitPos := lowBits - bitsInCurrent;
      }
    }
    ghost var all := LowSeq(cum, lowBits, |cum|);
    PackingLength(b[..], word, wordBitPos, bytePos, all);
    ghost var before := b[..];
    if wordBitPos > 0 {
      Store(b, bytePos, WordBytes(word)[..(wordBitPos + 7) / 8]);
    } else {
      StoredNothing(b[..], bytePos);
      assert WordBytes(word)[..0] == [];
    }
    PackingEnds(before, b[..], word, wordBitPos, bytePos, all);
    CodedStarts(b[..], cum, lowBits);
  }

  lemma StoredNothing(buf: seq<Byte>, at: nat)
    requires at <= |buf|
    ensures Stored(buf, buf, at, [])
  {
  }

  lemma LowSeqStarts(cum: seq<nat>, lowBits: nat)
    ensures LowSeq(cum, lowBits, 0) == []
  {
  }

  lemma LowSeqStep(cum: seq<nat>, lowBits: nat, i: nat)
    requires i < |cum|
    ensures LowSeq(cum, lowBits, i + 1) == LowSeq(cum, lowBits, i) + ToBits(cum[i], lowBits)
    ensures |LowSeq(cum, lowBits, i)| + lowBits <= Times(|cum|, lowBits)
  {
    LowSeqPrefix(cum, lowBits, i + 1, |cum|);
    TimesStep(i, lowBits);
    hide ToBits, Times;
  }

  lemma CodedStarts(data: seq<Byte>, cum: seq<nat>, lowBits: nat)
    requires var all := LowSeq(cum, lowBits, |cum|);
             forall p: nat :: p < 8 * |data| ==> StreamBit(data, p) == (p < |all| && all[p])
    ensures Coded(data, cum, lowBits, 0)
  {
    hide LowSeq, StreamBit, Times;
  }

  // ---------- Marks ----------

  method SetBit(b: array<Byte>, p: nat)
    requires p < 8 * b.Length
    modifies b
    ensures forall q: nat :: q < 8 * b.Length ==> StreamBit(b[..], q) == (q == p || old(StreamBit(b[..], q)))
  {
    ghost var before := b[..];
    b[p / 8] := WithBit(b[p / 8], p % 8);
    hide ByteBits;
    forall q: nat | q < 8 * b.Length ensures StreamBit(b[..], q) == (q == p || StreamBit(before, q)) {
      if q / 8 == p / 8 {
        assert q == p <==> q % 8 == p % 8;
      }
    }
  }

  // v | 1 << i
  function WithBit(v: Byte, i: nat): (r: Byte)
    requires i < 8
    ensures forall k :: 0 <= k < 8 ==> ByteBits(r)[k] == (k == i || ByteBits(v)[k])
  {
    ByteOf(ByteBits(v)[i := true])
  }

  lemma MarkWritten(before: seq<Byte>, after: seq<Byte>, cum: seq<nat>, lowBits: nat, i: nat)
    requires i < |cum| && Coded(before, cum, lowBits, i) && |after| == |before|
    requires Times(|cum|, lowBits) + MarkPos(cum, lowBits, i) < 8 * |before|
    requires forall q: nat :: q < 8 * |before| ==>
      StreamBit(after, q) == (q == Times(|cum|, lowBits) + MarkPos(cum, lowBits, i) || StreamBit(before, q))
    ensures Coded(after, cum, lowBits, i + 1)
  {
    var base := Times(|cum|, lowBits);
    hide Times, LowSeq, StreamBit, MarkPos;
    forall p: nat | p < 8 * |after|
      ensures StreamBit(after, p) == (if p < base then LowSeq(cum, lowBits, |cum|)[p] else Marked(cum, lowBits, i + 1, p - base))
    {
      if p >= base {
        MarkedStep(cum, lowBits, i, p - base);
      }
    }
  }

  lemma MarkedStep(cum: seq<nat>, lowBits: nat, i: nat, q: nat)
    requires i < |cum|
    ensures Marked(cum, lowBits, i + 1, q) <==> Marked(cum, lowBits, i, q) || MarkPos(cum, lowBits, i) == q
  {
    hide MarkPos;
    if Marked(cum, lowBits, i + 1, q) {
      var k :| 0 <= k < i + 1 && MarkPos(cum, lowBits, k) == q;
    }
  }

  /** Marks every value in unary: the gap to the previous high part, then a one. */
  method WriteMarks(b: array<Byte>, cum: seq<nat>, U: nat, lowBits: nat)
    requires Coded(b[..], cum, lowBits, 0) && lowBits < 16
    requires (forall k :: 0 < k < |cum| ==> cum[k - 1] <= cum[k]) && forall k :: 0 <= k < |cum| ==> cum[k] <= U
    requires Times(|cum|, lowBits) + (|cum| + HighBound(U, lowBits)) <= 8 * b.Length
    modifies b
    ensures Coded(b[..], cum, lowBits, |cum|)
  {
    var bitPos := Times(|cum|, lowBits);
    var prevHigh := 0;
    hide Coded, Times, HighBound, MarkPos, ScanStart, HighBefore, Shifted, StreamBit;
    ScanZero(cum, lowBits);
    for i := 0 to |cum|
      invariant Coded(b[..], cum, lowBits, i)
      invariant bitPos == Times(|cum|, lowBits) + ScanStart(cum, lowBits, i) && prevHigh == HighBefore(cum, lowBits, i)
    {
      Positions(cum, lowBits, i);
      LastMarkFits(cum, U, lowBits, i);
      var high := Shifted(cum[i], lowBits);
      var gap := high - prevHigh;
      bitPos := bitPos + gap;
      ghost var before := b[..];
      SetBit(b, bitPos);
      MarkWritten(before, b[..], cum, lowBits, i);
      bitPos := bitPos + 1;
      prevHigh := high;
    }
  }

  lemma ScanZero(cum: seq<nat>, lowBits: nat)
    ensures ScanStart(cum, lowBits, 0) == 0 == HighBefore(cum, lowBits, 0)
  {
  }

  /** Encodes a non-decreasing sequence bounded by U into a fresh buffer. */
  method EncodeEliasFanoInto(cum: seq<nat>, U: nat) returns (b: array<Byte>)
    requires |cum| > 0 && ComputeEFLowBits(|cum|, U) < 16
    requires (forall k :: 0 < k < |cum| ==> cum[k - 1] <= cum[k]) && forall k :: 0 <= k < |cum| ==> cum[k] <= U
    ensures fresh(b) && b.Length == EliasFanoSize(|cum|, U)
    ensures Coded(b[..], cum, ComputeEFLowBits(|cum|, U), |cum|)
    ensures Encodes(b[..], cum, ComputeEFLowBits(|cum|, U))
  {
    var lowBits := ComputeEFLowBits(|cum|, U);
    var totalBits := TotalBits(|cum|, U);
    b := new Byte[(totalBits + 7) / 8](_ => 0);
    if lowBits > 0 {
      PackLowBits(b, cum, lowBits);
    } else {
      NothingPacked(b[..], cum);
    }
    hide Coded, Times, HighBound, Encodes;
    WriteMarks(b, cum, U, lowBits);
    CodedEncodes(b[..], cum, U, lowBits);
  }

  lemma NothingPacked(data: seq<Byte>, cum: seq<nat>)
    requires forall k :: 0 <= k < |data| ==> data[k] == 0
    ensures Coded(data, cum, 0, 0)
  {
    hide ByteBits;
    forall p: nat | p < 8 * |data| ensures !StreamBit(data, p) {
      ZeroByte(p % 8);
    }
  }

  // The code determines its bytes.
  lemma CodedUnique(a: seq<Byte>, b: seq<Byte>, cum: seq<nat>, lowBits: nat)
    requires |a| == |b| && Coded(a, cum, lowBits, |cum|) && Coded(b, cum, lowBits, |cum|)
    ensures a == b
  {
    hide LowSeq, Times, Marked, ByteBits;
    forall p | 0 <= p < 8 * |a| ensures Stream(a)[p] == Stream(b)[p] {
      assert StreamBit(a, p) == StreamBit(b, p);
    }
    assert Stream(a) == Stream(b);
    StreamInjective(a, b);
  }
}
