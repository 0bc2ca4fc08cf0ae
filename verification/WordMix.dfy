/** 64-bit words: the fingerprint mixer, and words as numbers. */
module WordMix {
  /** Multiplication by the mixer loses nothing: another factor undoes it, and it reaches every word. */
  lemma MixerInvertible(x: bv64)
    ensures (x * 0x517c_c1b7_2722_0a95) * 0x2040_003d_7809_70bd == x
    ensures (x * 0x2040_003d_7809_70bd) * 0x517c_c1b7_2722_0a95 == x
  {
  }

  lemma Narrowed(x: bv64)
    ensures x >> 32 == ((x >> 32) as bv32) as bv64
  {
  }

  lemma Widened(x: bv32)
    ensures (x as bv64) as nat == x as nat
  {
  }

  lemma InRange(x: bv32)
    ensures x as nat < 0x1_0000_0000
  {
  }

  lemma UpperSmall(x: bv64)
    ensures (x >> 32) as nat < 0x1_0000_0000
  {
    Narrowed(x);
    Widened((x >> 32) as bv32);
    InRange((x >> 32) as bv32);
  }

  lemma BackAgain(x: bv64)
    ensures (x as nat) as bv64 == x
  {
  }

  lemma Literals()
    ensures (0 as bv64) as nat == 0
    ensures (7 as bv64) as nat == 7
    ensures (0x5E59_1B5C_A7DE_A408 as bv64) as nat == 0x5E59_1B5C_A7DE_A408
    ensures (0x7E4B_D22A_04F6_DD7F as bv64) as nat == 0x7E4B_D22A_04F6_DD7F
    ensures (0xFD_5BDE_EEB2_A01D as bv64) as nat == 0xFD_5BDE_EEB2_A01D
    ensures (0x121_FA00_AD77_D742 as bv64) as nat == 0x121_FA00_AD77_D742
    ensures (0x123_4567_89AB_CDEF as bv64) as nat == 0x123_4567_89AB_CDEF
    ensures (0xDEAD_BEEF_CAFE_BAB9 as bv64) as nat == 0xDEAD_BEEF_CAFE_BAB9
    ensures (0xDEAD_BEEF_CAFE_BABE as bv64) as nat == 0xDEAD_BEEF_CAFE_BABE
    ensures (0xFEDC_BA98_7654_3210 as bv64) as nat == 0xFEDC_BA98_7654_3210
    ensures (0xFFFF_FFFF_FFFF_FFFE as bv64) as nat == 0xFFFF_FFFF_FFFF_FFFE
    ensures (0xFFFF_FFFF_FFFF_FFFF as bv64) as nat == 0xFFFF_FFFF_FFFF_FFFF
  {
  }

  lemma HalvesAre()
    ensures (0x517c_c1b7 as bv64) as nat == 0x517c_c1b7
    ensures (0x2722_0a95 as bv64) as nat == 0x2722_0a95
  {
  }
}
