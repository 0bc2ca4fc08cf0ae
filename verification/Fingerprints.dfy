/** What a fingerprint says about a key: the low bytes of the upper half of its two words' mix. */
module Fingerprints {
  import opened LittleEndian
  import opened FastRange
  import opened IndexFormat
  import opened Routing
  import WordMix

  lemma UpperSmall(x: bv64)
    ensures ToNat(UpperHalf(x)) < 0x1_0000_0000
  {
    WordMix.UpperSmall(x);
  }

  lemma BackAgain(x: bv64)
    ensures FromNat(ToNat(x)) == x
  {
    WordMix.BackAgain(x);
  }

  lemma Fits(k: UInt64)
    ensures k < TWO64
  {
  }

  // The key's words, mixed.
  function KeyMix(k0: UInt64, k1: UInt64): bv64 {
    Fits(k0);
    Fits(k1);
    Mix(FromNat(k0), FromNat(k1))
  }

  lemma ExtractIs(k0: UInt64, k1: UInt64, size: nat)
    ensures ExtractFingerprint(k0, k1, size) == if size == 0 then 0 else ToNat(UpperHalf(KeyMix(k0, k1))) % Pow256(size)
  {
    hide ToNat, FromNat, Pow256, Mix, UpperHalf;
  }

  lemma FourBytes(k0: UInt64, k1: UInt64)
    ensures ExtractFingerprint(k0, k1, 4) == ToNat(UpperHalf(KeyMix(k0, k1)))
  {
    hide *;
    ExtractIs(k0, k1, 4);
    UpperSmall(KeyMix(k0, k1));
    Pow256Is(4);
  }

  /** A fingerprint of four bytes is the upper half of the mixed words: two keys share it exactly if
      they agree there. */
  lemma FourByteFingerprint(k0: UInt64, k1: UInt64, k0': UInt64, k1': UInt64)
    ensures ExtractFingerprint(k0, k1, 4) == ExtractFingerprint(k0', k1', 4) <==> UpperHalf(KeyMix(k0, k1)) == UpperHalf(KeyMix(k0', k1'))
  {
    hide *;
    FourBytes(k0, k1);
    FourBytes(k0', k1');
    BackAgain(UpperHalf(KeyMix(k0, k1)));
    BackAgain(UpperHalf(KeyMix(k0', k1')));
  }

  /** A shorter fingerprint is the low bytes of the four. */
  lemma ShorterFingerprint(k0: UInt64, k1: UInt64, size: nat)
    requires size <= 4
    ensures ExtractFingerprint(k0, k1, size) == ExtractFingerprint(k0, k1, 4) % Pow256(size)
  {
    hide *;
    FourBytes(k0, k1);
    ExtractIs(k0, k1, size);
    NoBytes();
  }

  lemma NoBytes()
    ensures Pow256(0) == 1
  {
  }

  lemma MixedOne()
    ensures UpperHalf(KeyMix(0, 1)) == 0x517c_c1b7
    ensures UpperHalf(KeyMix(0, 0x1_0000_0000)) == 0x2722_0a95
  {
  }

  /** Two keys whose fingerprints are the two halves of the mixer. */
  lemma MixerSeen()
    ensures ExtractFingerprint(0, 1, 4) == 0x517c_c1b7
    ensures ExtractFingerprint(0, 0x1_0000_0000, 4) == 0x2722_0a95
  {
    hide *;
    FourBytes(0, 1);
    FourBytes(0, 0x1_0000_0000);
    MixedOne();
    Halves();
  }

  lemma Halves()
    ensures ToNat(0x517c_c1b7) == 0x517c_c1b7
    ensures ToNat(0x2722_0a95) == 0x2722_0a95
  {
    WordMix.HalvesAre();
  }
}
