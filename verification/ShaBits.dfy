/** What the logical functions of sections 4.1.1 and 4.1.2 of FIPS 180-4 do to each bit of a word. */
module ShaBits {
  import opened Fips180

  /** Bit `i` of a word, from the least significant on; the index counts modulo 32. */
  predicate Bit(x: Word, i: bv32) { (x.bits >> (i & 31)) & 1 == 1 }

  /** Two words are equal if all their bits are. */
  lemma {:induction false} BitsDecide(x: Word, y: Word)
    requires forall i: bv32 :: Bit(x, i) == Bit(y, i)
    ensures x == y
  {
    SameBits(x, y, 0);
    SameBits(x, y, 4);
    SameBits(x, y, 8);
    SameBits(x, y, 12);
    SameBits(x, y, 16);
    SameBits(x, y, 20);
    SameBits(x, y, 24);
    SameBits(x, y, 28);
  }

  lemma {:induction false} SameBits(x: Word, y: Word, n: bv32)
    requires n <= 28 && forall i: bv32 :: Bit(x, i) == Bit(y, i)
    ensures (x.bits >> n) & 0xf == (y.bits >> n) & 0xf
  {
    assert Bit(x, n) == Bit(y, n) && Bit(x, n + 1) == Bit(y, n + 1);
    assert Bit(x, n + 2) == Bit(y, n + 2) && Bit(x, n + 3) == Bit(y, n + 3);
  }

  /** Exclusive or of three bits. */
  predicate Odd(a: bool, b: bool, c: bool) { (a != b) != c }

  /** Ch takes the second word's bit where the first word has one, and the third's elsewhere. */
  lemma {:induction false} ChBits(x: Word, y: Word, z: Word, i: bv32)
    ensures Bit(Ch(x, y, z), i) == if Bit(x, i) then Bit(y, i) else Bit(z, i)
  {
  }

  /** Maj takes the bit that two of the three words have. */
  lemma {:induction false} MajBits(x: Word, y: Word, z: Word, i: bv32)
    ensures Bit(Maj(x, y, z), i) == if Bit(x, i) == Bit(y, i) then Bit(x, i) else Bit(z, i)
  {
  }

  lemma {:induction false} ParityBits(x: Word, y: Word, z: Word, i: bv32)
    ensures Bit(Parity(x, y, z), i) == Odd(Bit(x, i), Bit(y, i), Bit(z, i))
  {
  }

  // Each bit of a sigma is the exclusive or of three bits, or of two where a shift runs out.

  lemma {:induction false} BigSigma0Bits(x: Word, i: bv32)
    requires i < 32
    ensures Bit(BigSigma0(x), i) == Odd(Bit(x, i + 2), Bit(x, i + 13), Bit(x, i + 22))
  {
  }

  lemma {:induction false} BigSigma1Bits(x: Word, i: bv32)
    requires i < 32
    ensures Bit(BigSigma1(x), i) == Odd(Bit(x, i + 6), Bit(x, i + 11), Bit(x, i + 25))
  {
  }

  lemma {:induction false} SmallSigma0Bits(x: Word, i: bv32)
    requires i < 32
    ensures Bit(SmallSigma0(x), i) == Odd(Bit(x, i + 7), Bit(x, i + 18), i < 29 && Bit(x, i + 3))
  {
  }

  lemma {:induction false} SmallSigma1Bits(x: Word, i: bv32)
    requires i < 32
    ensures Bit(SmallSigma1(x), i) == Odd(Bit(x, i + 17), Bit(x, i + 19), i < 22 && Bit(x, i + 10))
  {
  }

  /** The rotations to the left of SHA-1. */
  lemma {:induction false} RotationBits(x: Word, i: bv32)
    ensures Bit(Rotl1(x), i) == Bit(x, i - 1)
    ensures Bit(Rotl5(x), i) == Bit(x, i - 5)
    ensures Bit(Rotl30(x), i) == Bit(x, i - 30)
  {
  }
}
