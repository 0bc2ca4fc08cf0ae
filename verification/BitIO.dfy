/** The word-batched bit writer and reader, proved against plain bit sequences. */
module BitIO {
  import opened Basics
  import opened Words

  const GR_MAX_QUOTIENT := 16

  function Ones(n: nat): (r: seq<bool>)
    ensures |r| == n && forall i :: 0 <= i < n ==> r[i]
  {
    seq(n, _ => true)
  }

  lemma OnesSplit(m: nat, n: nat)
    ensures Ones(m + n) == Ones(m) + Ones(n)
  {
  }

  // ---------- Writing ----------

  // A word that holds `done` in its low bits and zeros above.
  ghost predicate Partial(current: Word, done: seq<bool>) {
    && |done| <= 64
    && (forall i :: 0 <= i < |done| ==> current[i] == done[i])
    && (forall i :: |done| <= i < 64 ==> !current[i])
  }

  // current |= v << bitPos, where v has n bits that fit.
  lemma OrFits(current: Word, done: seq<bool>, v: Word, n: nat)
    requires |done| + n <= 64 && Partial(current, done) && Partial(v, v[..n])
    ensures Partial(Or(current, Shl(v, |done|)), done + v[..n])
  {
  }

  // The part of v that still fits completes the word; the rest starts the next.
  lemma OrSplits(current: Word, done: seq<bool>, v: Word, n: nat)
    requires n <= 64 < |done| + n && |done| <= 64 && Partial(current, done) && Partial(v, v[..n])
    ensures var fit := 64 - |done|;
            && Or(current, Shl(And(v, Mask(fit)), |done|)) == done + v[..fit]
            && Or(current, Shl(v, |done|)) == done + v[..fit]
            && Partial(Shr(v, fit), v[fit..n])
  {
  }

  lemma MaskKeeps(v: Word, n: nat)
    requires n <= 64
    ensures And(v, Mask(n))[..n] == v[..n] && Partial(And(v, Mask(n)), v[..n])
  {
  }

  lemma StreamPrefix(data: seq<Byte>, k: nat)
    requires k <= |data|
    ensures Stream(data[..k]) == Stream(data)[..8 * k]
  {
    StreamAppend(data[..k], data[k..]);
    assert data[..k] + data[k..] == data;
  }

  // What a writer's fields stand for: whole words in the buffer, the rest in the
  // low bits of the current word.
  ghost predicate Writes(buf: seq<Byte>, current: Word, bitPos: nat, written: seq<bool>) {
    && bitPos < 64 && |buf| % 8 == 0
    && |written| == 8 * |buf| + bitPos
    && Stream(buf) == written[..8 * |buf|]
    && Partial(current, written[8 * |buf|..])
  }

  // A full word goes to the buffer.
  lemma WordFull(buf: seq<Byte>, w: Word, front: seq<bool>, bits: seq<bool>)
    requires |buf| % 8 == 0 && Stream(buf) == front && Partial(w, bits) && |bits| == 64
    ensures |buf + WordBytes(w)| % 8 == 0 && Stream(buf + WordBytes(w)) == front + bits
  {
    assert w == bits;
    StreamAppend(buf, WordBytes(w));
  }

  // n more bits that fit into the current word.
  lemma PushFits(buf: seq<Byte>, current: Word, bitPos: nat, written: seq<bool>, v: Word, n: nat)
    requires Writes(buf, current, bitPos, written)
    requires 0 < n <= 64 && bitPos < 64 && bitPos + n <= 64 && Partial(v, v[..n])
    ensures var next := Or(current, Shl(v, bitPos));
            && (bitPos + n < 64 ==> Writes(buf, next, bitPos + n, written + v[..n]))
            && (bitPos + n == 64 ==> Writes(buf + WordBytes(next), ZERO, 0, written + v[..n]))
  {
    hide *;
    WritesParts(buf, current, bitPos, written);
    var k := 8 * |buf|;
    var done := written[k..];
    OrFits(current, done, v, n);
    var next := Or(current, Shl(v, bitPos));
    Regroup(written, k, v, n, n);
    assert v[n..n] == [];
    if bitPos + n == 64 {
      WordFull(buf, next, written[..k], done + v[..n]);
      ZeroIsEmpty();
      WritesIs(buf + WordBytes(next), ZERO, 0, written + v[..n], written[..k] + (done + v[..n]), []);
    } else {
      assert written[..k] + (done + v[..n]) + [] == written[..k] + (done + v[..n]);
      WritesIs(buf, next, bitPos + n, written + v[..n], written[..k], done + v[..n]);
    }
  }

  lemma ZeroIsEmpty()
    ensures Partial(ZERO, [])
  {
  }

  lemma FullIsPartial(w: Word, bits: seq<bool>)
    requires w == bits
    ensures Partial(w, bits)
  {
  }

  lemma WritesIs(buf: seq<Byte>, current: Word, bitPos: nat, written: seq<bool>, front: seq<bool>, rest: seq<bool>)
    requires bitPos < 64 && |buf| % 8 == 0 && |written| == 8 * |buf| + bitPos
    requires Stream(buf) == front && written == front + rest && |front| == 8 * |buf| && Partial(current, rest)
    ensures Writes(buf, current, bitPos, written)
  {
    hide Stream, Partial;
    assert written[..8 * |buf|] == front && written[8 * |buf|..] == rest;
  }

  lemma WritesParts(buf: seq<Byte>, current: Word, bitPos: nat, written: seq<bool>)
    requires Writes(buf, current, bitPos, written)
    ensures bitPos < 64 && |buf| % 8 == 0 && |written| == 8 * |buf| + bitPos
    ensures Stream(buf) == written[..8 * |buf|] && Partial(current, written[8 * |buf|..])
  {
  }

  lemma Regroup(written: seq<bool>, k: nat, v: seq<bool>, fit: nat, n: nat)
    requires k <= |written| && fit <= n <= |v|
    ensures written + v[..n] == written[..k] + (written[k..] + v[..fit]) + v[fit..n]
  {
  }

  // n more bits that reach into the next word.
  lemma PushSplits(buf: seq<Byte>, current: Word, bitPos: nat, written: seq<bool>, v: Word, n: nat)
    requires Writes(buf, current, bitPos, written) && bitPos < 64
    requires n <= 64 < bitPos + n && Partial(v, v[..n])
    ensures var fit := 64 - bitPos;
            Writes(buf + WordBytes(Or(current, Shl(And(v, Mask(fit)), bitPos))), Shr(v, fit), n - fit, written + v[..n])
  {
    hide *;
    WritesParts(buf, current, bitPos, written);
    var fit, k := 64 - bitPos, 8 * |buf|;
    var done := written[k..];
    OrSplits(current, done, v, n);
    var full := Or(current, Shl(And(v, Mask(fit)), bitPos));
    FullIsPartial(full, done + v[..fit]);
    WordFull(buf, full, written[..k], done + v[..fit]);
    Regroup(written, k, v, fit, n);
    WritesIs(buf + WordBytes(full), Shr(v, fit), n - fit, written + v[..n], written[..k] + (done + v[..fit]), v[fit..n]);
  }

  // Flushing a partial word: whole bytes, zero bits beyond what was written.
  lemma FlushPads(buf: seq<Byte>, current: Word, bitPos: nat, written: seq<bool>)
    requires Writes(buf, current, bitPos, written)
    ensures var out := buf + WordBytes(current)[..(bitPos + 7) / 8];
            && |out| == (|written| + 7) / 8
            && |Stream(out)| >= |written| && Stream(out)[..|written|] == written
            && forall i :: |written| <= i < 8 * |out| ==> !Stream(out)[i]
  {
    hide Stream, WordBytes, ByteBits;
    var k := (bitPos + 7) / 8;
    StreamPrefix(WordBytes(current), k);
    StreamAppend(buf, WordBytes(current)[..k]);
    var front, rest := written[..8 * |buf|], written[8 * |buf|..];
    TailPads(front, rest, current, k);
    assert written == front + rest;
  }

  lemma TailPads(front: seq<bool>, rest: seq<bool>, current: Word, k: nat)
    requires Partial(current, rest) && |rest| <= 8 * k <= 64
    ensures var all := front + current[..8 * k];
            all[..|front| + |rest|] == front + rest && forall i :: |front| + |rest| <= i < |all| ==> !all[i]
  {
  }

  class BitWriter {
    var buf: seq<Byte>
    var current: Word
    var bitPos: nat

    // Everything written so far.
    ghost var written: seq<bool>

    ghost predicate Valid()
      reads this
    {
      Writes(buf, current, bitPos, written)
    }

    constructor ()
      ensures Valid() && written == []
    {
      buf, current, bitPos := [], ZERO, 0;
      written := [];
    }

    method Reset()
      modifies this
      ensures Valid() && written == []
    {
      buf, current, bitPos := [], ZERO, 0;
      written := [];
    }

    method FlushWord()
      modifies `buf, `current, `bitPos
      ensures buf == old(buf) + WordBytes(old(current)) && current == ZERO && bitPos == 0
    {
      buf := buf + WordBytes(current);
      current, bitPos := ZERO, 0;
    }

    method WriteBit(bit: bool)
      requires Valid()
      modifies this
      ensures Valid() && written == old(written) + [bit]
    {
      ghost var v: Word := if bit then Bit(0) else ZERO;
      OneBit(bit, v);
      PushFits(buf, current, bitPos, written, v, 1);
      OrZero(current, bitPos);
      hide Writes, Partial, Or, Shl, WordBytes;
      if bit {
        current := Or(current, Shl(Bit(0), bitPos));
      }
      bitPos := bitPos + 1;
      if bitPos == 64 {
        FlushWord();
      }
      written := written + [bit];
    }

    lemma OneBit(bit: bool, v: Word)
      requires v == if bit then Bit(0) else ZERO
      ensures Partial(v, v[..1]) && v[..1] == [bit]
    {
    }

    lemma OrZero(w: Word, n: nat)
      ensures Or(w, Shl(ZERO, n)) == w
    {
    }

    // The low n bits of v.
    method WriteBits(v: Word, n: nat)
      requires Valid() && n <= 64
      modifies this
      ensures Valid() && written == old(written) + v[..n]
    {
      if n == 0 {
        assert written + v[..0] == written;
        return;
      }
      MaskKeeps(v, n);
      WriteMasked(And(v, Mask(n)), n);
    }

    // A value whose bits above n are zero.
    method WriteMasked(v: Word, n: nat)
      requires Valid() && 0 < n <= 64 && Partial(v, v[..n])
      modifies this
      ensures Valid() && written == old(written) + v[..n]
    {
      hide Writes, Partial, Or, Shl, Shr, And, Mask, WordBytes;
      if bitPos + n <= 64 {
        PushFits(buf, current, bitPos, written, v, n);
        current := Or(current, Shl(v, bitPos));
        bitPos := bitPos + n;
        if bitPos == 64 {
          FlushWord();
        }
        written := written + v[..n];
        return;
      }
      BelowWord();
      var bitsInCurrent := 64 - bitPos;
      PushSplits(buf, current, bitPos, written, v, n);
      current := Or(current, Shl(And(v, Mask(bitsInCurrent)), bitPos));
      FlushWord();
      current := Shr(v, bitsInCurrent);
      bitPos := n - bitsInCurrent;
      written := written + v[..n];
    }

    lemma BelowWord()
      requires Valid()
      ensures bitPos < 64
    {
    }

    // n one-bits, whole words at a time.
    method WriteOnes(n: nat)
      requires Valid()
      modifies this
      ensures Valid() && written == old(written) + Ones(n)
    {
      if n == 0 {
        assert written + Ones(0) == written;
        return;
      }
      hide Writes, Mask, Partial;
      if bitPos + n <= 64 {
        MaskIsOnes(n);
        WriteMasked(Mask(n), n);
        return;
      }
      BelowWord();
      var left: nat := n - (64 - bitPos);
      MaskIsOnes(64 - bitPos);
      OnesSplit(64 - bitPos, left);
      WriteMasked(Mask(64 - bitPos), 64 - bitPos);
      while left >= 64
        invariant Valid() && left <= n
        invariant written + Ones(left) == old(written) + Ones(n)
      {
        MaskIsOnes(64);
        OnesSplit(64, left - 64);
        WriteMasked(Mask(64), 64);
        left := left - 64;
      }
      if left > 0 {
        MaskIsOnes(left);
        WriteMasked(Mask(left), left);
      } else {
        assert written + Ones(0) == written;
      }
    }

    lemma MaskIsOnes(n: nat)
      requires n <= 64
      ensures Partial(Mask(n), Mask(n)[..n]) && Mask(n)[..n] == Ones(n)
    {
    }

    function BitsWritten(): (n: nat)
      reads this
      ensures Valid() ==> n == |written|
    {
      8 * |buf| + bitPos
    }

    /** The bytes of everything written, padded with zero bits to a whole byte. */
    method Flush() returns (out: seq<Byte>)
      requires Valid()
      modifies `buf, `current, `bitPos
      ensures |out| == (|written| + 7) / 8 && |Stream(out)| >= |written|
      ensures Stream(out)[..|written|] == written
      ensures forall i :: |written| <= i < 8 * |out| ==> !Stream(out)[i]
    {
      FlushPads(buf, current, bitPos, written);
      hide Stream, WordBytes, Writes;
      if bitPos > 0 {
        var numBytes := (bitPos + 7) / 8;
        buf := buf + WordBytes(current)[..numBytes];
        current, bitPos := ZERO, 0;
      } else {
        assert buf == buf + WordBytes(current)[..0];
      }
      return buf;
    }
  }

  // ---------- Reading ----------

  // n bits from position pos on; past the end there are zeros.
  function BitsAt(data: seq<Byte>, pos: nat, n: nat): (r: seq<bool>)
    ensures |r| == n && forall i :: 0 <= i < n ==> r[i] == StreamBit(data, pos + i)
  {
    seq(n, i requires 0 <= i < n => StreamBit(data, pos + i))
  }

  // The ones from pos on, at most `max` of them.
  function UnaryAt(data: seq<Byte>, pos: nat, max: nat): (q: nat)
    ensures q <= max
    ensures forall i :: pos <= i < pos + q ==> StreamBit(data, i)
    ensures q < max ==> !StreamBit(data, pos + q)
    decreases max
  {
    if max > 0 && StreamBit(data, pos) then 1 + UnaryAt(data, pos + 1, max - 1) else 0
  }

  // q ones and then a zero, or max ones.
  lemma {:induction false} UnaryIs(data: seq<Byte>, pos: nat, max: nat, q: nat)
    requires q <= max && forall i :: pos <= i < pos + q ==> StreamBit(data, i)
    requires q < max ==> !StreamBit(data, pos + q)
    ensures UnaryAt(data, pos, max) == q
    decreases q
  {
    if q > 0 {
      UnaryIs(data, pos + 1, max - 1, q - 1);
    }
  }

  ghost predicate Loaded(data: seq<Byte>, current: Word, base: nat) {
    forall i :: 0 <= i < 64 ==> current[i] == StreamBit(data, base + i)
  }

  // The n bits of the word from bitPos on.
  function Within(current: Word, bitPos: nat, n: nat): Word {
    And(Shr(current, bitPos), Mask(n))
  }

  // The rest of one word followed by the low bits of the next.
  function Across(current: Word, next: Word, bitPos: nat, n: nat): Word
    requires bitPos <= 64 < bitPos + n
  {
    var bitsFromCurrent := 64 - bitPos;
    Or(Shr(current, bitPos), Shl(And(next, Mask(n - bitsFromCurrent)), bitsFromCurrent))
  }

  lemma TakeWithin(data: seq<Byte>, current: Word, base: nat, bitPos: nat, n: nat)
    requires Loaded(data, current, base) && bitPos + n <= 64
    ensures Partial(Within(current, bitPos, n), BitsAt(data, base + bitPos, n))
  {
    hide StreamBit;
    forall i | 0 <= i < n ensures Within(current, bitPos, n)[i] == BitsAt(data, base + bitPos, n)[i] {
      assert current[bitPos + i] == StreamBit(data, base + (bitPos + i));
    }
  }

  lemma TakeAcross(data: seq<Byte>, current: Word, next: Word, base: nat, bitPos: nat, n: nat)
    requires Loaded(data, current, base) && Loaded(data, next, base + 64) && bitPos <= 64 < bitPos + n && n <= 64
    ensures Partial(Across(current, next, bitPos, n), BitsAt(data, base + bitPos, n))
  {
    hide StreamBit;
    var fit := 64 - bitPos;
    var r := Across(current, next, bitPos, n);
    forall i | 0 <= i < n ensures r[i] == BitsAt(data, base + bitPos, n)[i] {
      if i < fit {
        assert current[bitPos + i] == StreamBit(data, base + (bitPos + i));
      } else {
        assert next[i - fit] == StreamBit(data, base + 64 + (i - fit));
      }
    }
  }

  // The ones left in the current word: as many as the trailing zeros of its
  // inverted rest.
  function RunOfOnes(current: Word, bitPos: nat): nat {
    TrailingZeros(Not(Shr(current, bitPos)))
  }

  lemma RunFacts(data: seq<Byte>, current: Word, base: nat, bitPos: nat)
    requires Loaded(data, current, base) && bitPos < 64
    ensures var ones := RunOfOnes(current, bitPos);
            && ones <= 64 - bitPos
            && (forall i :: base + bitPos <= i < base + bitPos + ones ==> StreamBit(data, i))
            && (ones < 64 - bitPos ==> !StreamBit(data, base + bitPos + ones))
  {
    hide StreamBit;
    var inverted := Not(Shr(current, bitPos));
    var ones := RunOfOnes(current, bitPos);
    assert bitPos > 0 ==> inverted[64 - bitPos];
    forall i | base + bitPos <= i < base + bitPos + ones ensures StreamBit(data, i) {
      assert !inverted[i - base - bitPos];
      assert current[i - base] == StreamBit(data, base + (i - base));
    }
    if ones < 64 - bitPos {
      assert current[bitPos + ones] == StreamBit(data, base + (bitPos + ones));
    }
  }

  // All ones in [start, start + n).
  ghost predicate AllOnes(data: seq<Byte>, start: nat, n: nat) {
    forall i :: start <= i < start + n ==> StreamBit(data, i)
  }

  lemma OnesGrow(data: seq<Byte>, start: nat, count: nat, current: Word, base: nat, bitPos: nat)
    requires Loaded(data, current, base) && bitPos < 64
    requires AllOnes(data, start, count) && start + count == base + bitPos
    ensures var ones := RunOfOnes(current, bitPos);
            && ones <= 64 - bitPos
            && AllOnes(data, start, count + ones)
            && (ones < 64 - bitPos ==> !StreamBit(data, start + count + ones))
  {
    RunFacts(data, current, base, bitPos);
    hide RunOfOnes, StreamBit;
  }

  lemma UnaryEnds(data: seq<Byte>, start: nat, count: nat, max: nat)
    requires AllOnes(data, start, count)
    ensures count >= max ==> UnaryAt(data, start, max) == max
    ensures count < max && !StreamBit(data, start + count) ==> UnaryAt(data, start, max) == count
  {
    hide StreamBit;
    if count >= max {
      UnaryIs(data, start, max, max);
    } else if !StreamBit(data, start + count) {
      UnaryIs(data, start, max, count);
    }
  }

  // What a reader's fields stand for: the word at stream position `base`, and the
  // next word to load.
  ghost predicate Reads(data: seq<Byte>, current: Word, bitPos: nat, bytePos: nat, base: nat) {
    && bitPos <= 64
    && Loaded(data, current, base)
    && bytePos <= |data|
    && (base + 64 == 8 * bytePos || (bytePos == |data| && base + 64 >= 8 * |data|))
  }

  lemma ReadsFirst(data: seq<Byte>)
    ensures Reads(data, LoadWord(data, 0), 0, if |data| >= 8 then 8 else |data|, 0)
  {
  }

  lemma ReadsNext(data: seq<Byte>, current: Word, bitPos: nat, bytePos: nat, base: nat)
    requires Reads(data, current, bitPos, bytePos, base)
    ensures bytePos <= |data|
    ensures bytePos < |data| ==>
              Reads(data, LoadWord(data, bytePos), 0, if |data| - bytePos >= 8 then bytePos + 8 else |data|, base + 64)
    ensures bytePos == |data| ==> Reads(data, ZERO, 0, bytePos, base + 64)
  {
  }

  class BitReader {
    const data: seq<Byte>
    var current: Word
    var bitPos: nat
    var bytePos: nat

    // The stream position of the current word.
    ghost var base: nat

    ghost predicate Valid()
      reads this
    {
      Reads(data, current, bitPos, bytePos, base)
    }

    ghost function Pos(): nat
      reads this
    {
      base + bitPos
    }

    constructor (data: seq<Byte>)
      ensures Valid() && Pos() == 0 && this.data == data
    {
      this.data := data;
      current := LoadWord(data, 0);
      bytePos := if |data| >= 8 then 8 else |data|;
      bitPos, base := 0, 0;
      new;
      ReadsFirst(data);
    }

    // The next word of the stream.
    method Refill()
      requires Valid()
      modifies this
      ensures Valid() && bitPos == 0 && base == old(base) + 64
    {
      ReadsNext(data, current, bitPos, bytePos, base);
      hide Reads, Loaded;
      var remaining := |data| - bytePos;
      if remaining >= 8 {
        current := LoadWord(data, bytePos);
        bytePos := bytePos + 8;
      } else if remaining > 0 {
        current := LoadWord(data, bytePos);
        bytePos := |data|;
      } else {
        current := ZERO;
      }
      bitPos := 0;
      base := base + 64;
    }

    // Moves within the current word.
    method Advance(n: nat)
      requires Valid() && bitPos + n <= 64
      modifies `bitPos
      ensures Valid() && bitPos == old(bitPos) + n && Pos() == old(Pos()) + n
    {
      bitPos := bitPos + n;
    }

    lemma ValidIs()
      ensures Pos() == base + bitPos
      ensures Valid() ==> bitPos <= 64 && Loaded(data, current, base)
    {
    }

    method ReadBits(n: nat) returns (r: Word)
      requires Valid() && n <= 64
      modifies this
      ensures Valid() && Pos() == old(Pos()) + n
      ensures Partial(r, BitsAt(data, old(Pos()), n))
    {
      hide *;
      ValidIs();
      if n == 0 {
        NoBits(Pos());
        return ZERO;
      }
      if bitPos + n > 64 {
        var before, start := current, bitPos;
        Refill();
        ValidIs();
        TakeAcross(data, before, current, base - 64, start, n);
        Advance(n - (64 - start));
        return Across(before, current, start, n);
      }
      TakeWithin(data, current, base, bitPos, n);
      r := Within(current, bitPos, n);
      Advance(n);
    }

    lemma NoBits(pos: nat)
      ensures Partial(ZERO, BitsAt(data, pos, 0))
    {
    }

    method SkipBits(count: nat)
      requires Valid()
      modifies this
      ensures Valid() && Pos() == old(Pos()) + count
    {
      var n: nat := count;
      hide Reads;
      while n > 0
        invariant Valid() && Pos() + n == old(Pos()) + count
        decreases n, bitPos
      {
        ValidIs();
        var available := 64 - bitPos;
        if n <= available {
          Advance(n);
          return;
        }
        n := n - available;
        Refill();
      }
    }

    /** Counts ones up to the maximum quotient, consuming the closing zero only if
        the maximum was not reached. */
    method ReadUnaryMax16() returns (q: nat)
      requires Valid()
      modifies this
      ensures Valid() && q == UnaryAt(data, old(Pos()), GR_MAX_QUOTIENT)
      ensures Pos() == old(Pos()) + q + if q < GR_MAX_QUOTIENT then 1 else 0
    {
      ghost var start := Pos();
      q := 0;
      var done := false;
      assert AllOnes(data, start, 0) && GR_MAX_QUOTIENT > 0;
      hide Reads, Loaded, AllOnes, UnaryAt, StreamBit;
      while !done
        invariant Valid()
        invariant !done ==> q < GR_MAX_QUOTIENT && Pos() == start + q && AllOnes(data, start, q)
        invariant done ==> q == UnaryAt(data, start, GR_MAX_QUOTIENT)
        invariant done ==> Pos() == start + q + if q < GR_MAX_QUOTIENT then 1 else 0
        decreases !done, GR_MAX_QUOTIENT - q
      {
        ValidIs();
        if bitPos >= 64 {
          Refill();
        }
        done, q := ScanWord(q, start);
      }
    }

    // Counts on within the current word.
    method ScanWord(count: nat, ghost start: nat) returns (done: bool, total: nat)
      requires Valid() && bitPos < 64 && Pos() == start + count
      requires count < GR_MAX_QUOTIENT && AllOnes(data, start, count)
      modifies `bitPos
      ensures Valid()
      ensures !done ==> count < total < GR_MAX_QUOTIENT && Pos() == start + total && AllOnes(data, start, total)
      ensures done ==> total == UnaryAt(data, start, GR_MAX_QUOTIENT)
      ensures done ==> Pos() == start + total + if total < GR_MAX_QUOTIENT then 1 else 0
    {
      hide *;
      ValidIs();
      OnesGrow(data, start, count, current, base, bitPos);
      UnaryEnds(data, start, count + RunOfOnes(current, bitPos), GR_MAX_QUOTIENT);
      var zeros := RunOfOnes(current, bitPos);
      var availableBits := 64 - bitPos;
      if count + zeros >= GR_MAX_QUOTIENT {
        Advance(GR_MAX_QUOTIENT - count);
        return true, GR_MAX_QUOTIENT;
      }
      if zeros < availableBits {
        Advance(zeros + 1);
        return true, count + zeros;
      }
      Advance(availableBits);
      return false, count + availableBits;
    }
  }
}
