/** Where the constants of SHA-256 come from: sections 4.2.2 and 5.3.3 of FIPS 180-4 define them by
    the roots of the first primes. */
module ShaConstants {
  import opened Fips180

  /** The cube root of `p` has the whole part `whole` and a fractional part that starts with the 32
      bits `k`. */
  predicate CubeRoot(p: nat, whole: nat, k: Word) {
    var r := whole * 0x1_0000_0000 + k.bits as int;
    r * r * r <= p * 0x1_0000_0000_0000_0000_0000_0000 < (r + 1) * (r + 1) * (r + 1)
  }

  /** The same of the square root and `h`. */
  predicate SquareRoot(p: nat, whole: nat, h: Word) {
    var r := whole * 0x1_0000_0000 + h.bits as int;
    r * r <= p * 0x1_0000_0000_0000_0000 < (r + 1) * (r + 1)
  }

  lemma {:induction false} H256FromSquareRoots()
    ensures SquareRoot(2, 1, H256[0]) && SquareRoot(3, 1, H256[1]) && SquareRoot(5, 2, H256[2])
            && SquareRoot(7, 2, H256[3])
    ensures SquareRoot(11, 3, H256[4]) && SquareRoot(13, 3, H256[5]) && SquareRoot(17, 4, H256[6])
            && SquareRoot(19, 4, H256[7])
  {
  }

  // The round constants, by eights.

  lemma {:induction false} K256FromCubeRoots_0()
    ensures CubeRoot(2, 1, K256_0[0]) && CubeRoot(3, 1, K256_0[1])
    ensures CubeRoot(5, 1, K256_0[2]) && CubeRoot(7, 1, K256_0[3])
    ensures CubeRoot(11, 2, K256_0[4]) && CubeRoot(13, 2, K256_0[5])
    ensures CubeRoot(17, 2, K256_0[6]) && CubeRoot(19, 2, K256_0[7])
  {
  }

  lemma {:induction false} K256FromCubeRoots_1()
    ensures CubeRoot(23, 2, K256_1[0]) && CubeRoot(29, 3, K256_1[1])
    ensures CubeRoot(31, 3, K256_1[2]) && CubeRoot(37, 3, K256_1[3])
    ensures CubeRoot(41, 3, K256_1[4]) && CubeRoot(43, 3, K256_1[5])
    ensures CubeRoot(47, 3, K256_1[6]) && CubeRoot(53, 3, K256_1[7])
  {
  }

  lemma {:induction false} K256FromCubeRoots_2()
    ensures CubeRoot(59, 3, K256_2[0]) && CubeRoot(61, 3, K256_2[1])
    ensures CubeRoot(67, 4, K256_2[2]) && CubeRoot(71, 4, K256_2[3])
    ensures CubeRoot(73, 4, K256_2[4]) && CubeRoot(79, 4, K256_2[5])
    ensures CubeRoot(83, 4, K256_2[6]) && CubeRoot(89, 4, K256_2[7])
  {
  }

  lemma {:induction false} K256FromCubeRoots_3()
    ensures CubeRoot(97, 4, K256_3[0]) && CubeRoot(101, 4, K256_3[1])
    ensures CubeRoot(103, 4, K256_3[2]) && CubeRoot(107, 4, K256_3[3])
    ensures CubeRoot(109, 4, K256_3[4]) && CubeRoot(113, 4, K256_3[5])
    ensures CubeRoot(127, 5, K256_3[6]) && CubeRoot(131, 5, K256_3[7])
  {
  }

  lemma {:induction false} K256FromCubeRoots_4()
    ensures CubeRoot(137, 5, K256_4[0]) && CubeRoot(139, 5, K256_4[1])
    ensures CubeRoot(149, 5, K256_4[2]) && CubeRoot(151, 5, K256_4[3])
    ensures CubeRoot(157, 5, K256_4[4]) && CubeRoot(163, 5, K256_4[5])
    ensures CubeRoot(167, 5, K256_4[6]) && CubeRoot(173, 5, K256_4[7])
  {
  }

  lemma {:induction false} K256FromCubeRoots_5()
    ensures CubeRoot(179, 5, K256_5[0]) && CubeRoot(181, 5, K256_5[1])
    ensures CubeRoot(191, 5, K256_5[2]) && CubeRoot(193, 5, K256_5[3])
    ensures CubeRoot(197, 5, K256_5[4]) && CubeRoot(199, 5, K256_5[5])
    ensures CubeRoot(211, 5, K256_5[6]) && CubeRoot(223, 6, K256_5[7])
  {
  }

  lemma {:induction false} K256FromCubeRoots_6()
    ensures CubeRoot(227, 6, K256_6[0]) && CubeRoot(229, 6, K256_6[1])
    ensures CubeRoot(233, 6, K256_6[2]) && CubeRoot(239, 6, K256_6[3])
    ensures CubeRoot(241, 6, K256_6[4]) && CubeRoot(251, 6, K256_6[5])
    ensures CubeRoot(257, 6, K256_6[6]) && CubeRoot(263, 6, K256_6[7])
  {
  }

  lemma {:induction false} K256FromCubeRoots_7()
    ensures CubeRoot(269, 6, K256_7[0]) && CubeRoot(271, 6, K256_7[1])
    ensures CubeRoot(277, 6, K256_7[2]) && CubeRoot(281, 6, K256_7[3])
    ensures CubeRoot(283, 6, K256_7[4]) && CubeRoot(293, 6, K256_7[5])
    ensures CubeRoot(307, 6, K256_7[6]) && CubeRoot(311, 6, K256_7[7])
  {
  }
}
