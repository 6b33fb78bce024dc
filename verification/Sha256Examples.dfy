/** SHA-256 of the two examples that NIST publishes for FIPS 180-4, computed from the definition:
    every round is an assertion about constants, eight to a lemma. */
module Sha256Examples {
  import opened Common
  import opened Fips180
  import opened ShaMessages
  import opened Sha256Rows

  // ----- The constants of the three blocks -----

  const ABC_W_0 := Row(0x61626380, 0x00000000, 0x00000000, 0x00000000, 0x00000000, 0x00000000, 0x00000000, 0x00000000)
  const ABC_W_1 := Row(0x00000000, 0x00000000, 0x00000000, 0x00000000, 0x00000000, 0x00000000, 0x00000000, 0x00000018)
  const ABC_W_2 := Row(0x61626380, 0x000f0000, 0x7da86405, 0x600003c6, 0x3e9d7b78, 0x0183fc00, 0x12dcbfdb, 0xe2e2c38e)
  const ABC_W_3 := Row(0xc8215c1a, 0xb73679a2, 0xe5bc3909, 0x32663c5b, 0x9d209d67, 0xec8726cb, 0x702138a4, 0xd3b7973b)
  const ABC_W_4 := Row(0x93f5997f, 0x3b68ba73, 0xaff4ffc1, 0xf10a5c62, 0x0a8b3996, 0x72af830a, 0x9409e33e, 0x24641522)
  const ABC_W_5 := Row(0x9f47bf94, 0xf0a64f5a, 0x3e246a79, 0x27333ba3, 0x0c4763f2, 0x840abf27, 0x7a290d5d, 0x065c43da)
  const ABC_W_6 := Row(0xfb3e89cb, 0xcc7617db, 0xb9e66c34, 0xa9993667, 0x84badedd, 0xc21462bc, 0x1487472c, 0xb20f7a99)
  const ABC_W_7 := Row(0xef57b9cd, 0xebe6b238, 0x9fe3095e, 0x78bc8d4b, 0xa43fcf15, 0x668b2ff8, 0xeeaba2cc, 0x12b1edeb)
  const ABC_A_0 := Row(0x00000000, 0x00000000, 0x00000000, 0x00000000, 0xa54ff53a, 0x3c6ef372, 0xbb67ae85, 0x6a09e667)
  const ABC_A_1 := Row(0x5d6aebcd, 0x5a6ad9ad, 0xc8c347a7, 0xd550f666, 0x04409a6a, 0x2b4209f5, 0xe5030380, 0x85a07b5f)
  const ABC_A_2 := Row(0x8e04ecb9, 0x8c87346b, 0x4798a3f4, 0xf71fc5a9, 0x87912990, 0xd932eb16, 0xc0645fde, 0xb0fa238e)
  const ABC_A_3 := Row(0x21da9a9b, 0xc2fbd9d1, 0xfe777bbf, 0xe1f20c33, 0x9dc68b63, 0xc2606d6d, 0xa7a3623f, 0xc5d53d8d)
  const ABC_A_4 := Row(0x1c2c2838, 0xcde8037d, 0xb62ec4bc, 0x77d37528, 0x363482c9, 0xa0060b30, 0xea992a22, 0x73b33bf5)
  const ABC_A_5 := Row(0x98e12507, 0xfe604df5, 0xa9a7738c, 0x65a0cfe4, 0x41a65cb1, 0x34df1604, 0x6dc57a8a, 0x79ea687a)
  const ABC_A_6 := Row(0xd6670766, 0xdf46652f, 0x17aa0dfe, 0x9d4baf93, 0x26628815, 0x72ab4b91, 0xa14c14b0, 0x4172328d)
  const ABC_A_7 := Row(0x05757ceb, 0xf11bfaa8, 0x7a0508a1, 0x886e7a22, 0x101fd28f, 0xf5702fdb, 0x3ec45cdb, 0x38cc9913)
  const ABC_A_8 := Row(0xfcd1887b, 0xc062d46f, 0xffb70472, 0xb6ae8fff, 0xb85e2ce9, 0x04d24d6c, 0xd39a2165, 0x506e3058)
  const ABC_E_0 := Row(0x00000000, 0x00000000, 0x00000000, 0x00000000, 0x5be0cd19, 0x1f83d9ab, 0x9b05688c, 0x510e527f)
  const ABC_E_1 := Row(0xfa2a4622, 0x78ce7989, 0xf92939eb, 0x24e00850, 0x43ada245, 0x714260ad, 0x9b27a401, 0x0c657a79)
  const ABC_E_2 := Row(0x32ca2d8c, 0x1cc92596, 0x436b23e8, 0x816fd6e9, 0x1e578218, 0x745a48de, 0x0b92f20c, 0x07590dcd)
  const ABC_E_3 := Row(0x8034229c, 0x846ee454, 0xcc899961, 0xb0638179, 0x8ada8930, 0xe1257970, 0x49f5114a, 0xaa47c347)
  const ABC_E_4 := Row(0x2823ef91, 0x14383d8e, 0xc74c6516, 0xedffbff8, 0x6112a3b7, 0xade79437, 0x0109ab3a, 0xba591112)
  const ABC_E_5 := Row(0x9cd9f5f6, 0x59249dd3, 0x085f3833, 0xf4b002d6, 0x0772a26b, 0xa507a53d, 0xf0781bc8, 0x1efbc0a0)
  const ABC_E_6 := Row(0x26352d63, 0x838b2711, 0xdecd4715, 0xfda24c2e, 0xa80f11f0, 0xb7755da1, 0xd57b94a9, 0xfecf0bc6)
  const ABC_E_7 := Row(0xbd714038, 0x6e5c390c, 0x52f1ccf7, 0x49231c1e, 0x529e7d00, 0x9f4787c3, 0xe50e1b4f, 0x54cb266b)
  const ABC_E_8 := Row(0x9b5e906c, 0x7e44008e, 0x6d83bfc6, 0xb21bad3d, 0x961f4894, 0x948d25b6, 0xfb121210, 0x5ef50f24)

  const HEAD_W_0 := Row(0x61626364, 0x62636465, 0x63646566, 0x64656667, 0x65666768, 0x66676869, 0x6768696a, 0x68696a6b)
  const HEAD_W_1 := Row(0x696a6b6c, 0x6a6b6c6d, 0x6b6c6d6e, 0x6c6d6e6f, 0x6d6e6f70, 0x6e6f7071, 0x80000000, 0x00000000)
  const HEAD_W_2 := Row(0xeb8012ad, 0xa7c3ae92, 0x76e93ba2, 0xba42e743, 0x92a92204, 0xd847e75e, 0x9e160036, 0xb280a7cb)
  const HEAD_W_3 := Row(0xddeb1516, 0xf36586f4, 0x969cd048, 0xe959d99d, 0x6accc0ec, 0xf54cb098, 0x2af1b2da, 0xee59c4c9)
  const HEAD_W_4 := Row(0xa835e16a, 0x1dff4429, 0xd6e15959, 0xc397cd6e, 0x6f1801ca, 0x21574205, 0x35ff7a84, 0x9743ee78)
  const HEAD_W_5 := Row(0xe44183e7, 0x0d09f00d, 0x9c89af54, 0x042d5bef, 0x71f134d0, 0x0f94f463, 0x7e49dc63, 0x6f65c997)
  const HEAD_W_6 := Row(0x0b706583, 0x179312ca, 0x503054e9, 0xba125c39, 0x7e9392c9, 0xd5cbaa1e, 0x78e0585d, 0xf6e7611c)
  const HEAD_W_7 := Row(0x8ac830ce, 0x8b47a303, 0xfd6e627f, 0x8c6e2c6a, 0x4001adf1, 0x1a3dd097, 0xa9df6f62, 0x6aa60a39)
  const HEAD_A_0 := Row(0x00000000, 0x00000000, 0x00000000, 0x00000000, 0xa54ff53a, 0x3c6ef372, 0xbb67ae85, 0x6a09e667)
  const HEAD_A_1 := Row(0x5d6aebb1, 0x2f2d5fcf, 0x97651825, 0x4a8d64d5, 0xf921c212, 0x55c8ef48, 0x485835b7, 0xd237e6db)
  const HEAD_A_2 := Row(0x359f2bce, 0x3a474b2b, 0xb8e2b4cb, 0x1762215c, 0x101a4861, 0xd68e6457, 0xdd16cbb3, 0xc3486194)
  const HEAD_A_3 := Row(0xb9dcacb1, 0x046a193e, 0xf402f058, 0x2139187b, 0xd70ac17d, 0x1b2b66b8, 0xae2e2d4f, 0x59fce6b9)
  const HEAD_A_4 := Row(0x4a885065, 0x573221da, 0x128661da, 0x73f858af, 0x74bcf468, 0xdf7151a0, 0xeb43f3ed, 0x5581ab07)
  const HEAD_A_5 := Row(0x9fc905c8, 0x9ce5a62f, 0x1df8e885, 0x0786dce8, 0x2c55d3a6, 0xa985b4be, 0x91ac9d5d, 0x7e4d30b8)
  const HEAD_A_6 := Row(0x7e056794, 0x508a16ab, 0xb62c7013, 0x167361de, 0xde71e2f2, 0x18f0d19d, 0x165be9cd, 0x13d82741)
  const HEAD_A_7 := Row(0x017b9d99, 0x543c99a1, 0x758ca97a, 0x81c1cde0, 0xb8d55619, 0x1d6de87a, 0xf907b313, 0x9e57c4a0)
  const HEAD_A_8 := Row(0x71629856, 0x7c015a2c, 0x921fccb6, 0xe18f259a, 0xbcfce922, 0xf6f443f8, 0x86126910, 0x1bdc6f6f)
  const HEAD_E_0 := Row(0x00000000, 0x00000000, 0x00000000, 0x00000000, 0x5be0cd19, 0x1f83d9ab, 0x9b05688c, 0x510e527f)
  const HEAD_E_1 := Row(0xfa2a4606, 0x4eb1cfce, 0x62d5c49e, 0x6494841b, 0x05c4f88a, 0x7ff91c94, 0x39a5b2ca, 0xa401d211)
  const HEAD_E_2 := Row(0xc09ffec4, 0x9037b3b8, 0x443ed29e, 0xee1c97a8, 0x839a0fc9, 0x9243f8af, 0x9162aded, 0x1496a54f)
  const HEAD_E_3 := Row(0xd4f64250, 0x885370b6, 0x6f433549, 0x7c304206, 0x7cc6b262, 0xd560b028, 0xf074fc95, 0xa2c7d51d)
  const HEAD_E_4 := Row(0x763597fb, 0x36e74eb4, 0x1162d575, 0xe77c797f, 0x72abaecd, 0x7629c961, 0x0635d880, 0xdf980085)
  const HEAD_E_5 := Row(0xa94d2af1, 0x6ef3b6bd, 0x2a9e048e, 0xde2a21d1, 0xb067c1af, 0xf72bf353, 0x68d8d590, 0x9f5b9b6d)
  const HEAD_E_6 := Row(0x423b26c0, 0x45459d97, 0x80a92a00, 0x41dd3844, 0xff61c636, 0x6b88472c, 0xa483f080, 0xa7802a4d)
  const HEAD_E_7 := Row(0xaeb10b60, 0x16f134b6, 0x100cf2ea, 0x5c47eb7b, 0x1c806a61, 0x3443bed4, 0x61a41711, 0xeec13548)
  const HEAD_E_8 := Row(0x2f6c8c4e, 0xcb9d3dd0, 0x43d8a034, 0x51e15869, 0x962d8621, 0xacc75916, 0x2fc08f85, 0x25d2430a)

  const TAIL_W_0 := Row(0x00000000, 0x00000000, 0x00000000, 0x00000000, 0x00000000, 0x00000000, 0x00000000, 0x00000000)
  const TAIL_W_1 := Row(0x00000000, 0x00000000, 0x00000000, 0x00000000, 0x00000000, 0x00000000, 0x00000000, 0x000001c0)
  const TAIL_W_2 := Row(0x00000000, 0x00d80000, 0x00000000, 0x00003677, 0x00000000, 0x1df5600d, 0x000001c0, 0x1c00501c)
  const TAIL_W_3 := Row(0x01b00000, 0x220a8d94, 0x0000a365, 0x177017e7, 0x63d38035, 0x090ab713, 0x4c7539ca, 0x0f19a8c9)
  const TAIL_W_4 := Row(0x5df4b0c4, 0xe257036a, 0xc97bb6f1, 0xc5b46f4d, 0xf8253c4e, 0xa558d189, 0x78696285, 0xed07117f)
  const TAIL_W_5 := Row(0x107358f6, 0x390ae496, 0x565010a2, 0xc51d7d44, 0x9e74c972, 0x6614b561, 0x30fc129d, 0x9ac684a8)
  const TAIL_W_6 := Row(0x2b658dbd, 0xe290f793, 0x9eebb24c, 0x9713b5de, 0x41061ab7, 0xe022e23b, 0x0772079e, 0x7de22d9c)
  const TAIL_W_7 := Row(0xc8b83778, 0x75a79849, 0xd93dbddb, 0x0a036c9d, 0xcb4f6ac6, 0x823f97e2, 0xea2f2a7a, 0xb9018b52)
  const TAIL_A_0 := Row(0x00000000, 0x00000000, 0x00000000, 0x00000000, 0x624cde5c, 0x3363376a, 0x417a1795, 0x85e655d6)
  const TAIL_A_1 := Row(0x7c20c838, 0x7c3c0f86, 0xfd1eebdc, 0xf268faa9, 0x185a5d79, 0x3eeb6c06, 0x89bba3f1, 0xbf9a93a0)
  const TAIL_A_2 := Row(0x2c096744, 0x2d964e86, 0x5b35025b, 0x5eb4ec40, 0x35ee996d, 0xd74080fa, 0x0cea5cbc, 0x16a8cc79)
  const TAIL_A_3 := Row(0xf16f634e, 0x23dcb6c2, 0xdcff40fd, 0x76f1a2bc, 0x20aad899, 0xd44dc81a, 0xf13ae55b, 0xa4195b91)
  const TAIL_A_4 := Row(0x4984fa79, 0xaa6cb982, 0x9450fbbc, 0x0d936bab, 0xd958b529, 0x1cfa5eb0, 0x02ef3a5f, 0xb0eab1c5)
  const TAIL_A_5 := Row(0x0bfba73c, 0x4bd1df96, 0x9907f1b6, 0xecde4e0d, 0x2f11c939, 0xd949682b, 0xadca7a96, 0x221b8a5a)
  const TAIL_A_6 := Row(0x12d97845, 0x2c794876, 0x8300fca2, 0xf2ad6322, 0x0f154e11, 0x104a7db4, 0x0b3303a7, 0xd7354d5b)
  const TAIL_A_7 := Row(0xb736d7a6, 0x2748e5ec, 0xd8aabcf9, 0x1a6bcf6a, 0x4eca6fa0, 0xec02560a, 0xd9f0c115, 0x92952710)
  const TAIL_A_8 := Row(0x20d4d0e4, 0x4348eb1f, 0x286fe5f0, 0x1c4cddd9, 0xa9f181dd, 0xb25cef29, 0x908c2123, 0x9ea7148b)
  const TAIL_E_0 := Row(0x00000000, 0x00000000, 0x00000000, 0x00000000, 0xf20e533a, 0xcc4b32c1, 0xcac5f811, 0x76e09589)
  const TAIL_E_1 := Row(0x4670ae6e, 0x8c51be64, 0xaf71b9ea, 0xe20362ef, 0x8dff3001, 0xfe20cda6, 0x0a34df03, 0x059abdd1)
  const TAIL_E_2 := Row(0xabfa465b, 0xaa27ed82, 0x10e77723, 0xe11b4548, 0x5c24e2a2, 0x68aa893f, 0x60356548, 0x0fcb1f6f)
  const TAIL_E_3 := Row(0x8b21cdc1, 0xca9182d3, 0x69bf7b95, 0x0dc84bb1, 0xcc4769f2, 0x5bace62d, 0x966aa287, 0xeddbd6ed)
  const TAIL_E_4 := Row(0xa530d939, 0x0b5eeea4, 0x09166dda, 0x6e495d4b, 0xc2fa99b1, 0x6c49db9f, 0x5da10665, 0xf6d93952)
  const TAIL_E_5 := Row(0x8b99e3a9, 0x905e44ac, 0x66c3043d, 0x5dc119e6, 0xfed4ce1d, 0x32d99008, 0xc6cce4ff, 0x0b82c5eb)
  const TAIL_E_6 := Row(0xe4213ca2, 0xff6759ba, 0xe0e3457c, 0xcc48c7f3, 0x6f9517cb, 0x5348e8f6, 0xbbe1c39a, 0xaad55b6b)
  const TAIL_E_7 := Row(0x68f25260, 0xd4b58576, 0x27844711, 0xff5e99d0, 0x989ed071, 0x7151df8e, 0x624150c4, 0x226806d6)
  const TAIL_E_8 := Row(0x4e515a4d, 0xc21eddf9, 0x54076664, 0xf487a853, 0x27ccb387, 0x2aa1bb13, 0x9a392956, 0x2c5c4ed0)

  lemma {:induction false} AbcRounds_0()
    ensures RowRounds(ABC_A_0, ABC_E_0, K256_0, ABC_W_0, ABC_A_1, ABC_E_1)
  {
  }

  lemma {:induction false} AbcRounds_1()
    ensures RowRounds(ABC_A_1, ABC_E_1, K256_1, ABC_W_1, ABC_A_2, ABC_E_2)
  {
  }

  lemma {:induction false} AbcRounds_2()
    ensures RowRounds(ABC_A_2, ABC_E_2, K256_2, ABC_W_2, ABC_A_3, ABC_E_3)
  {
  }

  lemma {:induction false} AbcRounds_3()
    ensures RowRounds(ABC_A_3, ABC_E_3, K256_3, ABC_W_3, ABC_A_4, ABC_E_4)
  {
  }

  lemma {:induction false} AbcRounds_4()
    ensures RowRounds(ABC_A_4, ABC_E_4, K256_4, ABC_W_4, ABC_A_5, ABC_E_5)
  {
  }

  lemma {:induction false} AbcRounds_5()
    ensures RowRounds(ABC_A_5, ABC_E_5, K256_5, ABC_W_5, ABC_A_6, ABC_E_6)
  {
  }

  lemma {:induction false} AbcRounds_6()
    ensures RowRounds(ABC_A_6, ABC_E_6, K256_6, ABC_W_6, ABC_A_7, ABC_E_7)
  {
  }

  lemma {:induction false} AbcRounds_7()
    ensures RowRounds(ABC_A_7, ABC_E_7, K256_7, ABC_W_7, ABC_A_8, ABC_E_8)
  {
  }

  lemma {:induction false} AbcWords_0()
    ensures RowWords(ABC_W_0, ABC_W_1, ABC_W_2)
  {
  }

  lemma {:induction false} AbcWords_1()
    ensures RowWords(ABC_W_1, ABC_W_2, ABC_W_3)
  {
  }

  lemma {:induction false} AbcWords_2()
    ensures RowWords(ABC_W_2, ABC_W_3, ABC_W_4)
  {
  }

  lemma {:induction false} AbcWords_3()
    ensures RowWords(ABC_W_3, ABC_W_4, ABC_W_5)
  {
  }

  lemma {:induction false} AbcWords_4()
    ensures RowWords(ABC_W_4, ABC_W_5, ABC_W_6)
  {
  }

  lemma {:induction false} AbcWords_5()
    ensures RowWords(ABC_W_5, ABC_W_6, ABC_W_7)
  {
  }

  lemma {:induction false} HeadRounds_0()
    ensures RowRounds(HEAD_A_0, HEAD_E_0, K256_0, HEAD_W_0, HEAD_A_1, HEAD_E_1)
  {
  }

  lemma {:induction false} HeadRounds_1()
    ensures RowRounds(HEAD_A_1, HEAD_E_1, K256_1, HEAD_W_1, HEAD_A_2, HEAD_E_2)
  {
  }

  lemma {:induction false} HeadRounds_2()
    ensures RowRounds(HEAD_A_2, HEAD_E_2, K256_2, HEAD_W_2, HEAD_A_3, HEAD_E_3)
  {
  }

  lemma {:induction false} HeadRounds_3()
    ensures RowRounds(HEAD_A_3, HEAD_E_3, K256_3, HEAD_W_3, HEAD_A_4, HEAD_E_4)
  {
  }

  lemma {:induction false} HeadRounds_4()
    ensures RowRounds(HEAD_A_4, HEAD_E_4, K256_4, HEAD_W_4, HEAD_A_5, HEAD_E_5)
  {
  }

  lemma {:induction false} HeadRounds_5()
    ensures RowRounds(HEAD_A_5, HEAD_E_5, K256_5, HEAD_W_5, HEAD_A_6, HEAD_E_6)
  {
  }

  lemma {:induction false} HeadRounds_6()
    ensures RowRounds(HEAD_A_6, HEAD_E_6, K256_6, HEAD_W_6, HEAD_A_7, HEAD_E_7)
  {
  }

  lemma {:induction false} HeadRounds_7()
    ensures RowRounds(HEAD_A_7, HEAD_E_7, K256_7, HEAD_W_7, HEAD_A_8, HEAD_E_8)
  {
  }

  lemma {:induction false} HeadWords_0()
    ensures RowWords(HEAD_W_0, HEAD_W_1, HEAD_W_2)
  {
  }

  lemma {:induction false} HeadWords_1()
    ensures RowWords(HEAD_W_1, HEAD_W_2, HEAD_W_3)
  {
  }

  lemma {:induction false} HeadWords_2()
    ensures RowWords(HEAD_W_2, HEAD_W_3, HEAD_W_4)
  {
  }

  lemma {:induction false} HeadWords_3()
    ensures RowWords(HEAD_W_3, HEAD_W_4, HEAD_W_5)
  {
  }

  lemma {:induction false} HeadWords_4()
    ensures RowWords(HEAD_W_4, HEAD_W_5, HEAD_W_6)
  {
  }

  lemma {:induction false} HeadWords_5()
    ensures RowWords(HEAD_W_5, HEAD_W_6, HEAD_W_7)
  {
  }

  lemma {:induction false} TailRounds_0()
    ensures RowRounds(TAIL_A_0, TAIL_E_0, K256_0, TAIL_W_0, TAIL_A_1, TAIL_E_1)
  {
  }

  lemma {:induction false} TailRounds_1()
    ensures RowRounds(TAIL_A_1, TAIL_E_1, K256_1, TAIL_W_1, TAIL_A_2, TAIL_E_2)
  {
  }

  lemma {:induction false} TailRounds_2()
    ensures RowRounds(TAIL_A_2, TAIL_E_2, K256_2, TAIL_W_2, TAIL_A_3, TAIL_E_3)
  {
  }

  lemma {:induction false} TailRounds_3()
    ensures RowRounds(TAIL_A_3, TAIL_E_3, K256_3, TAIL_W_3, TAIL_A_4, TAIL_E_4)
  {
  }

  lemma {:induction false} TailRounds_4()
    ensures RowRounds(TAIL_A_4, TAIL_E_4, K256_4, TAIL_W_4, TAIL_A_5, TAIL_E_5)
  {
  }

  lemma {:induction false} TailRounds_5()
    ensures RowRounds(TAIL_A_5, TAIL_E_5, K256_5, TAIL_W_5, TAIL_A_6, TAIL_E_6)
  {
  }

  lemma {:induction false} TailRounds_6()
    ensures RowRounds(TAIL_A_6, TAIL_E_6, K256_6, TAIL_W_6, TAIL_A_7, TAIL_E_7)
  {
  }

  lemma {:induction false} TailRounds_7()
    ensures RowRounds(TAIL_A_7, TAIL_E_7, K256_7, TAIL_W_7, TAIL_A_8, TAIL_E_8)
  {
  }

  lemma {:induction false} TailWords_0()
    ensures RowWords(TAIL_W_0, TAIL_W_1, TAIL_W_2)
  {
  }

  lemma {:induction false} TailWords_1()
    ensures RowWords(TAIL_W_1, TAIL_W_2, TAIL_W_3)
  {
  }

  lemma {:induction false} TailWords_2()
    ensures RowWords(TAIL_W_2, TAIL_W_3, TAIL_W_4)
  {
  }

  lemma {:induction false} TailWords_3()
    ensures RowWords(TAIL_W_3, TAIL_W_4, TAIL_W_5)
  {
  }

  lemma {:induction false} TailWords_4()
    ensures RowWords(TAIL_W_4, TAIL_W_5, TAIL_W_6)
  {
  }

  lemma {:induction false} TailWords_5()
    ensures RowWords(TAIL_W_5, TAIL_W_6, TAIL_W_7)
  {
  }

  lemma {:induction false} AbcBlock(chain: Chain8, b: Block)
    requires WordsAt(b, 0, ABC_W_0) && WordsAt(b, 1, ABC_W_1) && VarsAt(chain, b, 0, ABC_A_0, ABC_E_0)
    ensures VarsAt(chain, b, 8, ABC_A_8, ABC_E_8)
  {
    AbcWords_0();
    NextRow(b, 2, ABC_W_0, ABC_W_1, ABC_W_2);
    AbcWords_1();
    NextRow(b, 3, ABC_W_1, ABC_W_2, ABC_W_3);
    AbcWords_2();
    NextRow(b, 4, ABC_W_2, ABC_W_3, ABC_W_4);
    AbcWords_3();
    NextRow(b, 5, ABC_W_3, ABC_W_4, ABC_W_5);
    AbcWords_4();
    NextRow(b, 6, ABC_W_4, ABC_W_5, ABC_W_6);
    AbcWords_5();
    NextRow(b, 7, ABC_W_5, ABC_W_6, ABC_W_7);
    AbcRounds_0();
    NextRounds(chain, b, 0, ABC_A_0, ABC_E_0, ABC_W_0, ABC_A_1, ABC_E_1);
    AbcRounds_1();
    NextRounds(chain, b, 1, ABC_A_1, ABC_E_1, ABC_W_1, ABC_A_2, ABC_E_2);
    AbcRounds_2();
    NextRounds(chain, b, 2, ABC_A_2, ABC_E_2, ABC_W_2, ABC_A_3, ABC_E_3);
    AbcRounds_3();
    NextRounds(chain, b, 3, ABC_A_3, ABC_E_3, ABC_W_3, ABC_A_4, ABC_E_4);
    AbcRounds_4();
    NextRounds(chain, b, 4, ABC_A_4, ABC_E_4, ABC_W_4, ABC_A_5, ABC_E_5);
    AbcRounds_5();
    NextRounds(chain, b, 5, ABC_A_5, ABC_E_5, ABC_W_5, ABC_A_6, ABC_E_6);
    AbcRounds_6();
    NextRounds(chain, b, 6, ABC_A_6, ABC_E_6, ABC_W_6, ABC_A_7, ABC_E_7);
    AbcRounds_7();
    NextRounds(chain, b, 7, ABC_A_7, ABC_E_7, ABC_W_7, ABC_A_8, ABC_E_8);
  }

  lemma {:induction false} HeadBlock(chain: Chain8, b: Block)
    requires WordsAt(b, 0, HEAD_W_0) && WordsAt(b, 1, HEAD_W_1) && VarsAt(chain, b, 0, HEAD_A_0, HEAD_E_0)
    ensures VarsAt(chain, b, 8, HEAD_A_8, HEAD_E_8)
  {
    HeadWords_0();
    NextRow(b, 2, HEAD_W_0, HEAD_W_1, HEAD_W_2);
    HeadWords_1();
    NextRow(b, 3, HEAD_W_1, HEAD_W_2, HEAD_W_3);
    HeadWords_2();
    NextRow(b, 4, HEAD_W_2, HEAD_W_3, HEAD_W_4);
    HeadWords_3();
    NextRow(b, 5, HEAD_W_3, HEAD_W_4, HEAD_W_5);
    HeadWords_4();
    NextRow(b, 6, HEAD_W_4, HEAD_W_5, HEAD_W_6);
    HeadWords_5();
    NextRow(b, 7, HEAD_W_5, HEAD_W_6, HEAD_W_7);
    HeadRounds_0();
    NextRounds(chain, b, 0, HEAD_A_0, HEAD_E_0, HEAD_W_0, HEAD_A_1, HEAD_E_1);
    HeadRounds_1();
    NextRounds(chain, b, 1, HEAD_A_1, HEAD_E_1, HEAD_W_1, HEAD_A_2, HEAD_E_2);
    HeadRounds_2();
    NextRounds(chain, b, 2, HEAD_A_2, HEAD_E_2, HEAD_W_2, HEAD_A_3, HEAD_E_3);
    HeadRounds_3();
    NextRounds(chain, b, 3, HEAD_A_3, HEAD_E_3, HEAD_W_3, HEAD_A_4, HEAD_E_4);
    HeadRounds_4();
    NextRounds(chain, b, 4, HEAD_A_4, HEAD_E_4, HEAD_W_4, HEAD_A_5, HEAD_E_5);
    HeadRounds_5();
    NextRounds(chain, b, 5, HEAD_A_5, HEAD_E_5, HEAD_W_5, HEAD_A_6, HEAD_E_6);
    HeadRounds_6();
    NextRounds(chain, b, 6, HEAD_A_6, HEAD_E_6, HEAD_W_6, HEAD_A_7, HEAD_E_7);
    HeadRounds_7();
    NextRounds(chain, b, 7, HEAD_A_7, HEAD_E_7, HEAD_W_7, HEAD_A_8, HEAD_E_8);
  }

  lemma {:induction false} TailBlock(chain: Chain8, b: Block)
    requires WordsAt(b, 0, TAIL_W_0) && WordsAt(b, 1, TAIL_W_1) && VarsAt(chain, b, 0, TAIL_A_0, TAIL_E_0)
    ensures VarsAt(chain, b, 8, TAIL_A_8, TAIL_E_8)
  {
    TailWords_0();
    NextRow(b, 2, TAIL_W_0, TAIL_W_1, TAIL_W_2);
    TailWords_1();
    NextRow(b, 3, TAIL_W_1, TAIL_W_2, TAIL_W_3);
    TailWords_2();
    NextRow(b, 4, TAIL_W_2, TAIL_W_3, TAIL_W_4);
    TailWords_3();
    NextRow(b, 5, TAIL_W_3, TAIL_W_4, TAIL_W_5);
    TailWords_4();
    NextRow(b, 6, TAIL_W_4, TAIL_W_5, TAIL_W_6);
    TailWords_5();
    NextRow(b, 7, TAIL_W_5, TAIL_W_6, TAIL_W_7);
    TailRounds_0();
    NextRounds(chain, b, 0, TAIL_A_0, TAIL_E_0, TAIL_W_0, TAIL_A_1, TAIL_E_1);
    TailRounds_1();
    NextRounds(chain, b, 1, TAIL_A_1, TAIL_E_1, TAIL_W_1, TAIL_A_2, TAIL_E_2);
    TailRounds_2();
    NextRounds(chain, b, 2, TAIL_A_2, TAIL_E_2, TAIL_W_2, TAIL_A_3, TAIL_E_3);
    TailRounds_3();
    NextRounds(chain, b, 3, TAIL_A_3, TAIL_E_3, TAIL_W_3, TAIL_A_4, TAIL_E_4);
    TailRounds_4();
    NextRounds(chain, b, 4, TAIL_A_4, TAIL_E_4, TAIL_W_4, TAIL_A_5, TAIL_E_5);
    TailRounds_5();
    NextRounds(chain, b, 5, TAIL_A_5, TAIL_E_5, TAIL_W_5, TAIL_A_6, TAIL_E_6);
    TailRounds_6();
    NextRounds(chain, b, 6, TAIL_A_6, TAIL_E_6, TAIL_W_6, TAIL_A_7, TAIL_E_7);
    TailRounds_7();
    NextRounds(chain, b, 7, TAIL_A_7, TAIL_E_7, TAIL_W_7, TAIL_A_8, TAIL_E_8);
  }

  // ----- The two messages -----

  const HEAD_CHAIN: Chain8 := [
    Word(0x85e655d6), Word(0x417a1795), Word(0x3363376a), Word(0x624cde5c),
    Word(0x76e09589), Word(0xcac5f811), Word(0xcc4b32c1), Word(0xf20e533a)
  ]

  const ABC_END: Chain8 := [
    Word(0xba7816bf), Word(0x8f01cfea), Word(0x414140de), Word(0x5dae2223),
    Word(0xb00361a3), Word(0x96177a9c), Word(0xb410ff61), Word(0xf20015ad)
  ]

  const TAIL_END: Chain8 := [
    Word(0x248d6a61), Word(0xd20638b8), Word(0xe5c02693), Word(0x0c3e6039),
    Word(0xa33ce459), Word(0x64ff2167), Word(0xf6ecedd4), Word(0x19db06c1)
  ]

  lemma {:induction false} AbcParsed(b: Block)
    requires b == Pad(ABC)
    ensures WordsAt(b, 0, ABC_W_0) && WordsAt(b, 1, ABC_W_1)
  {
    AbcPad(b);
    Parsed(b, 0, ABC_W_0);
    Parsed(b, 1, ABC_W_1);
  }

  lemma {:induction false} AbcEnds(b: Block)
    requires b == Pad(ABC)
    ensures Compress256(H256, b) == ABC_END
  {
    AbcParsed(b);
    Starts(H256, b, ABC_A_0, ABC_E_0);
    AbcBlock(H256, b);
    Ends(H256, b, ABC_A_8, ABC_E_8);
  }

  const ABC_DIGEST: seq<Byte> := [
    0xba, 0x78, 0x16, 0xbf, 0x8f, 0x01, 0xcf, 0xea, 0x41, 0x41, 0x40, 0xde, 0x5d, 0xae, 0x22, 0x23,
    0xb0, 0x03, 0x61, 0xa3, 0x96, 0x17, 0x7a, 0x9c, 0xb4, 0x10, 0xff, 0x61, 0xf2, 0x00, 0x15, 0xad
  ]

  lemma {:induction false} AbcBytes()
    ensures BytesAre(ABC_END[0], 0xba, 0x78, 0x16, 0xbf)
    ensures BytesAre(ABC_END[1], 0x8f, 0x01, 0xcf, 0xea)
    ensures BytesAre(ABC_END[2], 0x41, 0x41, 0x40, 0xde)
    ensures BytesAre(ABC_END[3], 0x5d, 0xae, 0x22, 0x23)
    ensures BytesAre(ABC_END[4], 0xb0, 0x03, 0x61, 0xa3)
    ensures BytesAre(ABC_END[5], 0x96, 0x17, 0x7a, 0x9c)
    ensures BytesAre(ABC_END[6], 0xb4, 0x10, 0xff, 0x61)
    ensures BytesAre(ABC_END[7], 0xf2, 0x00, 0x15, 0xad)
  {
  }

  /** The first example. */
  lemma {:induction false} AbcDigest()
    ensures Sha256(ABC) == ABC_DIGEST
  {
    OneBlock(Compress256, H256, Pad(ABC), Pad(ABC));
    AbcEnds(Pad(ABC));
    AbcDigestIs();
  }

  lemma {:induction false} AbcDigestIs()
    ensures Digest(ABC_END) == ABC_DIGEST
  {
    AbcBytes();
    DigestIs(ABC_END, ABC_DIGEST);
  }

  lemma {:induction false} LongParsed()
    ensures WordsAt(LONG_1, 0, HEAD_W_0) && WordsAt(LONG_1, 1, HEAD_W_1)
    ensures WordsAt(LONG_2, 0, TAIL_W_0) && WordsAt(LONG_2, 1, TAIL_W_1)
  {
    LongLetters_0();
    LongLetters_1();
    LongWords();
    Parsed(LONG_1, 0, HEAD_W_0);
    Parsed(LONG_1, 1, HEAD_W_1);
    Parsed(LONG_2, 0, TAIL_W_0);
    Parsed(LONG_2, 1, TAIL_W_1);
  }

  lemma {:induction false} HeadEnds()
    ensures Compress256(H256, LONG_1) == HEAD_CHAIN
  {
    LongParsed();
    Starts(H256, LONG_1, HEAD_A_0, HEAD_E_0);
    HeadBlock(H256, LONG_1);
    Ends(H256, LONG_1, HEAD_A_8, HEAD_E_8);
  }

  lemma {:induction false} TailEnds()
    ensures Compress256(HEAD_CHAIN, LONG_2) == TAIL_END
  {
    LongParsed();
    Starts(HEAD_CHAIN, LONG_2, TAIL_A_0, TAIL_E_0);
    TailBlock(HEAD_CHAIN, LONG_2);
    Ends(HEAD_CHAIN, LONG_2, TAIL_A_8, TAIL_E_8);
  }

  const LONG_DIGEST: seq<Byte> := [
    0x24, 0x8d, 0x6a, 0x61, 0xd2, 0x06, 0x38, 0xb8, 0xe5, 0xc0, 0x26, 0x93, 0x0c, 0x3e, 0x60, 0x39,
    0xa3, 0x3c, 0xe4, 0x59, 0x64, 0xff, 0x21, 0x67, 0xf6, 0xec, 0xed, 0xd4, 0x19, 0xdb, 0x06, 0xc1
  ]

  lemma {:induction false} LongBytes()
    ensures BytesAre(TAIL_END[0], 0x24, 0x8d, 0x6a, 0x61)
    ensures BytesAre(TAIL_END[1], 0xd2, 0x06, 0x38, 0xb8)
    ensures BytesAre(TAIL_END[2], 0xe5, 0xc0, 0x26, 0x93)
    ensures BytesAre(TAIL_END[3], 0x0c, 0x3e, 0x60, 0x39)
    ensures BytesAre(TAIL_END[4], 0xa3, 0x3c, 0xe4, 0x59)
    ensures BytesAre(TAIL_END[5], 0x64, 0xff, 0x21, 0x67)
    ensures BytesAre(TAIL_END[6], 0xf6, 0xec, 0xed, 0xd4)
    ensures BytesAre(TAIL_END[7], 0x19, 0xdb, 0x06, 0xc1)
  {
  }

  lemma {:induction false} LongDigestIs()
    ensures Digest(TAIL_END) == LONG_DIGEST
  {
    LongBytes();
    DigestIs(TAIL_END, LONG_DIGEST);
  }

  /** The second example. */
  lemma {:induction false} LongDigest()
    ensures Sha256(LONG) == LONG_DIGEST
  {
    LongPad();
    TwoBlocks(Compress256, H256, Pad(LONG), LONG_1, LONG_2);
    HeadEnds();
    TailEnds();
    LongDigestIs();
  }
}
