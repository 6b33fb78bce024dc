/** SHA-1 of the two examples that NIST publishes for FIPS 180-4, computed from the definition: every
    round is an assertion about constants, eight to a lemma. */
module Sha1Examples {
  import opened Common
  import opened Fips180
  import opened ShaMessages
  import opened Sha1Rows

  // ----- The constants of the three blocks -----

  const ABC_W_0 := Row(0x61626380, 0x00000000, 0x00000000, 0x00000000, 0x00000000, 0x00000000, 0x00000000, 0x00000000)
  const ABC_W_1 := Row(0x00000000, 0x00000000, 0x00000000, 0x00000000, 0x00000000, 0x00000000, 0x00000000, 0x00000018)
  const ABC_W_2 := Row(0xc2c4c700, 0x00000000, 0x00000030, 0x85898e01, 0x00000000, 0x00000060, 0x0b131c03, 0x00000030)
  const ABC_W_3 := Row(0x85898ec1, 0x16263806, 0x00000000, 0x00000180, 0x2c4c700c, 0x000000f0, 0x93afb507, 0x5898e048)
  const ABC_W_4 := Row(0x8e9a9202, 0x00000600, 0xb131c0f0, 0x16263bc6, 0x4ebed41e, 0x626380a1, 0x16263806, 0x000018c0)
  const ABC_W_5 := Row(0xd2e138c4, 0x00000f00, 0x3afb5079, 0x898e04e5, 0xe2ba3c2b, 0x000060c0, 0x053a37cd, 0x74458547)
  const ABC_W_6 := Row(0xda9415ed, 0x26380a16, 0x626383a1, 0x4ebf54de, 0x3835b44b, 0x0000f600, 0x1e84c7a3, 0x98e04d98)
  const ABC_W_7 := Row(0x651d16a0, 0x62658ca1, 0x458544d6, 0x44584cb7, 0x7ba06619, 0x6380aea2, 0x0ae55269, 0x627b49a1)
  const ABC_W_8 := Row(0x7cd45c9d, 0x000f0000, 0xfb50753a, 0xec6765e8, 0xba3c2be2, 0x0060c000, 0x3a37cd05, 0x458546f4)
  const ABC_W_9 := Row(0xb8599dd6, 0x380a1a26, 0x01e02203, 0xe7cc3456, 0xe6e60b69, 0x00f60a00, 0x5795ef4f, 0x822e0879)
  const ABC_A_0 := Row(0x00000000, 0x00000000, 0x00000000, 0x0f4b87c3, 0x40c951d8, 0x62eb73fa, 0xefcdab89, 0x67452301)
  const ABC_A_1 := Row(0x0116fc33, 0x8990536d, 0xa1390f08, 0xcdd8e11b, 0xcfd499de, 0x3fc7ca40, 0x993e30c1, 0x9e8c07d4)
  const ABC_A_2 := Row(0x4b6ae328, 0x8351f929, 0xfbda9e89, 0x63188fe4, 0x4607b664, 0x9128f695, 0x196bee77, 0x20bdd62f)
  const ABC_A_3 := Row(0x4e925823, 0x82aa6728, 0xdc64901d, 0xfd9e1d7d, 0x1a37b0ca, 0x33a23bfc, 0x21283486, 0xd541f12d)
  const ABC_A_4 := Row(0xc7567dc6, 0x48413ba4, 0xbe35fbd5, 0x4aa84d97, 0x8370b52e, 0xc5fbaf5d, 0x1267b407, 0x3b845d33)
  const ABC_A_5 := Row(0x046faa0a, 0x2c0ebc11, 0x21796ad4, 0xdcbbb0cb, 0x0f511fd8, 0xdc63973f, 0x4c986405, 0x32de1cba)
  const ABC_A_6 := Row(0xfc87dedf, 0x970a0d5c, 0x7f193dc5, 0xee1b1aaf, 0x40f28e09, 0x1c51e1f2, 0xa01b846c, 0xbead02ca)
  const ABC_A_7 := Row(0xbaf39337, 0x120731c5, 0x641db2ce, 0x3847ad66, 0xe490436d, 0x27e9f1d8, 0x7b71f76d, 0x5e6456af)
  const ABC_A_8 := Row(0xc846093f, 0xd262ff50, 0x09d785fd, 0x3f52de5a, 0xd756c147, 0x548c9cb2, 0xb66c020b, 0x6b61c9e1)
  const ABC_A_9 := Row(0x19dfa7ac, 0x101655f9, 0x0c3df2b4, 0x78dd4d2b, 0x497093c0, 0x3f2588c2, 0xc199f8c7, 0x39859de7)
  const ABC_A_10 := Row(0xedb42de4, 0x11793f6f, 0x5ee76897, 0x63f7dab7, 0xa079b7d9, 0x860d21cc, 0x5738d5e1, 0x42541b35)

  const HEAD_W_0 := Row(0x61626364, 0x62636465, 0x63646566, 0x64656667, 0x65666768, 0x66676869, 0x6768696a, 0x68696a6b)
  const HEAD_W_1 := Row(0x696a6b6c, 0x6a6b6c6d, 0x6b6c6d6e, 0x6c6d6e6f, 0x6d6e6f70, 0x6e6f7071, 0x80000000, 0x00000000)
  const HEAD_W_2 := Row(0x0a063a3e, 0xd8dadcdf, 0xdadcdec0, 0xc8d2b4be, 0x6f757b5b, 0x757b5967, 0x8da16d70, 0xdaeefaba)
  const HEAD_W_3 := Row(0xfaf6cab6, 0xa6fb675a, 0x0c604cc8, 0x604cc02c, 0x49c0e6e2, 0x2ee8cbbc, 0xcfd72ec4, 0x97e9810e)
  const HEAD_W_4 := Row(0x0989cbe8, 0xf24843fe, 0x5c40d0ba, 0xa8d9cc3b, 0xb2b9666e, 0xba7b71b7, 0x20b28a72, 0xb28af500)
  const HEAD_W_5 := Row(0x8ac87842, 0x289addf4, 0x56d51f21, 0xd96b7fd2, 0x3868e778, 0xab5e4848, 0x7f0e2118, 0xde87a111)
  const HEAD_W_6 := Row(0xe8be56b0, 0x1a0ae652, 0xcd5611c8, 0x46ef29dc, 0x60d3da6d, 0xddf3ba6e, 0x2737f5e9, 0x4888a710)
  const HEAD_W_7 := Row(0xd2a1177b, 0x9999633b, 0xd6c69d03, 0xccf6127b, 0x7c58fe6d, 0xfdd99c68, 0xf8e32074, 0xe0ba3c7d)
  const HEAD_W_8 := Row(0x152198d6, 0x7b3f1982, 0x37f2d5b7, 0x8596323e, 0x810790d6, 0xbea0a942, 0x11c7e1b1, 0x6158d101)
  const HEAD_W_9 := Row(0x5fcd77d9, 0x7f2f12e6, 0xf868cfb1, 0xd6e997e9, 0xf526b852, 0xb7578dcc, 0x55d99df4, 0x1ff69958)
  const HEAD_A_0 := Row(0x00000000, 0x00000000, 0x00000000, 0x0f4b87c3, 0x40c951d8, 0x62eb73fa, 0xefcdab89, 0x67452301)
  const HEAD_A_1 := Row(0x0116fc17, 0xebf3b452, 0x5109913a, 0x2c4f6eac, 0x33f4ae5b, 0x96b85189, 0xdb04cb58, 0x45833f0f)
  const HEAD_A_2 := Row(0xc565c35e, 0x6350afda, 0x8993ea77, 0xe19ecaa2, 0x8603481e, 0x32f94a85, 0xb2e7a8be, 0x42637e39)
  const HEAD_A_3 := Row(0x6b068048, 0x426b9c35, 0x944b1bd1, 0x6c445652, 0x95836da5, 0x09511177, 0xe2b92dc4, 0xfd224575)
  const HEAD_A_4 := Row(0xeeb82d9a, 0x5a142c1a, 0x2972f7c7, 0xd526a644, 0xe1122421, 0x05b457b2, 0xa9c84bec, 0x52e31f60)
  const HEAD_A_5 := Row(0x5af3242c, 0x31c756a9, 0xe9ac987c, 0xab7c32ee, 0x5933fc99, 0x43f87ae9, 0x24957f22, 0xadeb7478)
  const HEAD_A_6 := Row(0xd70e5010, 0x79bcfb08, 0xf9bcb8de, 0x633e9561, 0x98c1ea64, 0xc6ea241e, 0xa2ad4f02, 0xc8a69090)
  const HEAD_A_7 := Row(0x88341600, 0x7e846f58, 0x86e358ba, 0x8d2e76c8, 0xce892e10, 0xedea95b1, 0x36d1230a, 0x776c3910)
  const HEAD_A_8 := Row(0xa681b723, 0xac0a794f, 0xf03d3782, 0x9ef775c3, 0x36254b13, 0x4080d4dc, 0x2bfaf7a8, 0x513f9ca0)
  const HEAD_A_9 := Row(0xe5895c81, 0x1037d2d5, 0x14a82da9, 0x6d17c9fd, 0x2c7b07bd, 0xfdf6efff, 0x112b96e3, 0x84065712)
  const HEAD_A_10 := Row(0xab89fb71, 0xc5210e35, 0x352d9f4b, 0x1a0e0e0a, 0xd0d47349, 0xad38620d, 0xd3ad7c25, 0x8ce34517)

  const TAIL_W_0 := Row(0x00000000, 0x00000000, 0x00000000, 0x00000000, 0x00000000, 0x00000000, 0x00000000, 0x00000000)
  const TAIL_W_1 := Row(0x00000000, 0x00000000, 0x00000000, 0x00000000, 0x00000000, 0x00000000, 0x00000000, 0x000001c0)
  const TAIL_W_2 := Row(0x00000000, 0x00000000, 0x00000380, 0x00000000, 0x00000000, 0x00000700, 0x00000000, 0x00000380)
  const TAIL_W_3 := Row(0x00000e00, 0x00000000, 0x00000000, 0x00001c00, 0x00000000, 0x00000d80, 0x00003800, 0x00000480)
  const TAIL_W_4 := Row(0x00000000, 0x00007000, 0x00000e00, 0x00003600, 0x0000e000, 0x00000e00, 0x00000000, 0x0001ce00)
  const TAIL_W_5 := Row(0x00000000, 0x0000d800, 0x00038000, 0x00004f00, 0x00000000, 0x00070e00, 0x0000ee00, 0x00037500)
  const TAIL_W_6 := Row(0x000e0000, 0x0000e000, 0x00003600, 0x001cee00, 0x00000000, 0x000df000, 0x00380000, 0x0004c600)
  const TAIL_W_7 := Row(0x0000e000, 0x0070ee00, 0x000ee000, 0x00369e00, 0x00e00000, 0x000ed600, 0x0000e000, 0x01cea600)
  const TAIL_W_8 := Row(0x00000000, 0x00d80000, 0x0380e000, 0x004f0000, 0x00000000, 0x070e0000, 0x00ee0000, 0x03751c00)
  const TAIL_W_9 := Row(0x0e000000, 0x00e0e000, 0x00363800, 0x1cee9000, 0x00000000, 0x0df09000, 0x3800e000, 0x04c77400)
  const TAIL_A_0 := Row(0x00000000, 0x00000000, 0x00000000, 0x295995c9, 0x119dc522, 0x1023d604, 0xc37b27ae, 0xf4286818)
  const TAIL_A_1 := Row(0x2df257e9, 0x4d3dc58f, 0xc352bb05, 0xeef743c6, 0x41e34277, 0x5443915c, 0xe7fa0377, 0xc6946813)
  const TAIL_A_2 := Row(0xfdde1de1, 0xb8538aca, 0x6ba94f63, 0x43a2792f, 0xfecd7bbf, 0xa2604ca8, 0x258b0baa, 0xd9772360)
  const TAIL_A_3 := Row(0x5507db6e, 0xa51b58bc, 0xc2eb709f, 0xd8992153, 0x37482f5f, 0xee8700bd, 0x9ad594b9, 0x8fbaa5b9)
  const TAIL_A_4 := Row(0x88fb5867, 0xeec50521, 0x50bce434, 0x5c416daf, 0x2429be5f, 0x0a2fb108, 0x17986223, 0x8a4af384)
  const TAIL_A_5 := Row(0x6b629993, 0xf15f04f3, 0x295cc25b, 0x696da404, 0xcef5ae12, 0x87d5b80c, 0x84e2a5f2, 0x03bb6310)
  const TAIL_A_6 := Row(0xc2d8f75f, 0xbfb25768, 0x28589152, 0xec1d3d61, 0x3caed7af, 0xc3d033ea, 0x7316056a, 0x46f93b68)
  const TAIL_A_7 := Row(0xdc8e7f26, 0x850d411c, 0x7e4672c0, 0x89fbd41d, 0x1797e228, 0x431d65bc, 0x2bdbb8cb, 0x6da72e7f)
  const TAIL_A_8 := Row(0xa8495a9b, 0xe785655a, 0x5b086c42, 0xa65818f7, 0x7aab101b, 0x93614c9c, 0xf66d9bf4, 0xd504902b)
  const TAIL_A_9 := Row(0x60a9da62, 0x8b687819, 0x083e90c3, 0xf6226bbf, 0x76c0563b, 0x989dd165, 0x8b2c7573, 0xae1b8e7b)
  const TAIL_A_10 := Row(0xca1840de, 0x16f3babb, 0xd28d83ad, 0x6bc02dfe, 0xd3a6e275, 0xda955482, 0x58c0aac0, 0x906fd62c)

  lemma {:induction false} AbcRounds_0()
    ensures RowRounds(0, ABC_A_0, ABC_W_0, ABC_A_1)
  {
  }

  lemma {:induction false} AbcRounds_1()
    ensures RowRounds(1, ABC_A_1, ABC_W_1, ABC_A_2)
  {
  }

  lemma {:induction false} AbcRounds_2()
    ensures RowRounds(2, ABC_A_2, ABC_W_2, ABC_A_3)
  {
  }

  lemma {:induction false} AbcRounds_3()
    ensures RowRounds(3, ABC_A_3, ABC_W_3, ABC_A_4)
  {
  }

  lemma {:induction false} AbcRounds_4()
    ensures RowRounds(4, ABC_A_4, ABC_W_4, ABC_A_5)
  {
  }

  lemma {:induction false} AbcRounds_5()
    ensures RowRounds(5, ABC_A_5, ABC_W_5, ABC_A_6)
  {
  }

  lemma {:induction false} AbcRounds_6()
    ensures RowRounds(6, ABC_A_6, ABC_W_6, ABC_A_7)
  {
  }

  lemma {:induction false} AbcRounds_7()
    ensures RowRounds(7, ABC_A_7, ABC_W_7, ABC_A_8)
  {
  }

  lemma {:induction false} AbcRounds_8()
    ensures RowRounds(8, ABC_A_8, ABC_W_8, ABC_A_9)
  {
  }

  lemma {:induction false} AbcRounds_9()
    ensures RowRounds(9, ABC_A_9, ABC_W_9, ABC_A_10)
  {
  }

  lemma {:induction false} AbcWords_0()
    ensures RowWords(ABC_W_0, ABC_W_1, ABC_W_2)
  {
  }

  lemma {:induction false} AbcWords_1()
    ensures RowWords(ABC_W_1, ABC_W_2, ABC_W_3)
  {
  }

  lemma {:induction false} AbcWords_2()
    ensures RowWords(ABC_W_2, ABC_W_3, ABC_W_4)
  {
  }

  lemma {:induction false} AbcWords_3()
    ensures RowWords(ABC_W_3, ABC_W_4, ABC_W_5)
  {
  }

  lemma {:induction false} AbcWords_4()
    ensures RowWords(ABC_W_4, ABC_W_5, ABC_W_6)
  {
  }

  lemma {:induction false} AbcWords_5()
    ensures RowWords(ABC_W_5, ABC_W_6, ABC_W_7)
  {
  }

  lemma {:induction false} AbcWords_6()
    ensures RowWords(ABC_W_6, ABC_W_7, ABC_W_8)
  {
  }

  lemma {:induction false} AbcWords_7()
    ensures RowWords(ABC_W_7, ABC_W_8, ABC_W_9)
  {
  }

  lemma {:induction false} AbcBlock(chain: Chain5, b: Block)
    requires WordsAt(b, 0, ABC_W_0) && WordsAt(b, 1, ABC_W_1) && VarsAt(chain, b, 0, ABC_A_0)
    ensures VarsAt(chain, b, 10, ABC_A_10)
  {
    AbcWords_0();
    NextRow(b, 2, ABC_W_0, ABC_W_1, ABC_W_2);
    AbcWords_1();
    NextRow(b, 3, ABC_W_1, ABC_W_2, ABC_W_3);
    AbcWords_2();
    NextRow(b, 4, ABC_W_2, ABC_W_3, ABC_W_4);
    AbcWords_3();
    NextRow(b, 5, ABC_W_3, ABC_W_4, ABC_W_5);
    AbcWords_4();
    NextRow(b, 6, ABC_W_4, ABC_W_5, ABC_W_6);
    AbcWords_5();
    NextRow(b, 7, ABC_W_5, ABC_W_6, ABC_W_7);
    AbcWords_6();
    NextRow(b, 8, ABC_W_6, ABC_W_7, ABC_W_8);
    AbcWords_7();
    NextRow(b, 9, ABC_W_7, ABC_W_8, ABC_W_9);
    AbcRounds_0();
    NextRounds(chain, b, 0, ABC_A_0, ABC_W_0, ABC_A_1);
    AbcRounds_1();
    NextRounds(chain, b, 1, ABC_A_1, ABC_W_1, ABC_A_2);
    AbcRounds_2();
    NextRounds(chain, b, 2, ABC_A_2, ABC_W_2, ABC_A_3);
    AbcRounds_3();
    NextRounds(chain, b, 3, ABC_A_3, ABC_W_3, ABC_A_4);
    AbcRounds_4();
    NextRounds(chain, b, 4, ABC_A_4, ABC_W_4, ABC_A_5);
    AbcRounds_5();
    NextRounds(chain, b, 5, ABC_A_5, ABC_W_5, ABC_A_6);
    AbcRounds_6();
    NextRounds(chain, b, 6, ABC_A_6, ABC_W_6, ABC_A_7);
    AbcRounds_7();
    NextRounds(chain, b, 7, ABC_A_7, ABC_W_7, ABC_A_8);
    AbcRounds_8();
    NextRounds(chain, b, 8, ABC_A_8, ABC_W_8, ABC_A_9);
    AbcRounds_9();
    NextRounds(chain, b, 9, ABC_A_9, ABC_W_9, ABC_A_10);
  }

  lemma {:induction false} HeadRounds_0()
    ensures RowRounds(0, HEAD_A_0, HEAD_W_0, HEAD_A_1)
  {
  }

  lemma {:induction false} HeadRounds_1()
    ensures RowRounds(1, HEAD_A_1, HEAD_W_1, HEAD_A_2)
  {
  }

  lemma {:induction false} HeadRounds_2()
    ensures RowRounds(2, HEAD_A_2, HEAD_W_2, HEAD_A_3)
  {
  }

  lemma {:induction false} HeadRounds_3()
    ensures RowRounds(3, HEAD_A_3, HEAD_W_3, HEAD_A_4)
  {
  }

  lemma {:induction false} HeadRounds_4()
    ensures RowRounds(4, HEAD_A_4, HEAD_W_4, HEAD_A_5)
  {
  }

  lemma {:induction false} HeadRounds_5()
    ensures RowRounds(5, HEAD_A_5, HEAD_W_5, HEAD_A_6)
  {
  }

  lemma {:induction false} HeadRounds_6()
    ensures RowRounds(6, HEAD_A_6, HEAD_W_6, HEAD_A_7)
  {
  }

  lemma {:induction false} HeadRounds_7()
    ensures RowRounds(7, HEAD_A_7, HEAD_W_7, HEAD_A_8)
  {
  }

  lemma {:induction false} HeadRounds_8()
    ensures RowRounds(8, HEAD_A_8, HEAD_W_8, HEAD_A_9)
  {
  }

  lemma {:induction false} HeadRounds_9()
    ensures RowRounds(9, HEAD_A_9, HEAD_W_9, HEAD_A_10)
  {
  }

  lemma {:induction false} HeadWords_0()
    ensures RowWords(HEAD_W_0, HEAD_W_1, HEAD_W_2)
  {
  }

  lemma {:induction false} HeadWords_1()
    ensures RowWords(HEAD_W_1, HEAD_W_2, HEAD_W_3)
  {
  }

  lemma {:induction false} HeadWords_2()
    ensures RowWords(HEAD_W_2, HEAD_W_3, HEAD_W_4)
  {
  }

  lemma {:induction false} HeadWords_3()
    ensures RowWords(HEAD_W_3, HEAD_W_4, HEAD_W_5)
  {
  }

  lemma {:induction false} HeadWords_4()
    ensures RowWords(HEAD_W_4, HEAD_W_5, HEAD_W_6)
  {
  }

  lemma {:induction false} HeadWords_5()
    ensures RowWords(HEAD_W_5, HEAD_W_6, HEAD_W_7)
  {
  }

  lemma {:induction false} HeadWords_6()
    ensures RowWords(HEAD_W_6, HEAD_W_7, HEAD_W_8)
  {
  }

  lemma {:induction false} HeadWords_7()
    ensures RowWords(HEAD_W_7, HEAD_W_8, HEAD_W_9)
  {
  }

  lemma {:induction false} HeadBlock(chain: Chain5, b: Block)
    requires WordsAt(b, 0, HEAD_W_0) && WordsAt(b, 1, HEAD_W_1) && VarsAt(chain, b, 0, HEAD_A_0)
    ensures VarsAt(chain, b, 10, HEAD_A_10)
  {
    HeadWords_0();
    NextRow(b, 2, HEAD_W_0, HEAD_W_1, HEAD_W_2);
    HeadWords_1();
    NextRow(b, 3, HEAD_W_1, HEAD_W_2, HEAD_W_3);
    HeadWords_2();
    NextRow(b, 4, HEAD_W_2, HEAD_W_3, HEAD_W_4);
    HeadWords_3();
    NextRow(b, 5, HEAD_W_3, HEAD_W_4, HEAD_W_5);
    HeadWords_4();
    NextRow(b, 6, HEAD_W_4, HEAD_W_5, HEAD_W_6);
    HeadWords_5();
    NextRow(b, 7, HEAD_W_5, HEAD_W_6, HEAD_W_7);
    HeadWords_6();
    NextRow(b, 8, HEAD_W_6, HEAD_W_7, HEAD_W_8);
    HeadWords_7();
    NextRow(b, 9, HEAD_W_7, HEAD_W_8, HEAD_W_9);
    HeadRounds_0();
    NextRounds(chain, b, 0, HEAD_A_0, HEAD_W_0, HEAD_A_1);
    HeadRounds_1();
    NextRounds(chain, b, 1, HEAD_A_1, HEAD_W_1, HEAD_A_2);
    HeadRounds_2();
    NextRounds(chain, b, 2, HEAD_A_2, HEAD_W_2, HEAD_A_3);
    HeadRounds_3();
    NextRounds(chain, b, 3, HEAD_A_3, HEAD_W_3, HEAD_A_4);
    HeadRounds_4();
    NextRounds(chain, b, 4, HEAD_A_4, HEAD_W_4, HEAD_A_5);
    HeadRounds_5();
    NextRounds(chain, b, 5, HEAD_A_5, HEAD_W_5, HEAD_A_6);
    HeadRounds_6();
    NextRounds(chain, b, 6, HEAD_A_6, HEAD_W_6, HEAD_A_7);
    HeadRounds_7();
    NextRounds(chain, b, 7, HEAD_A_7, HEAD_W_7, HEAD_A_8);
    HeadRounds_8();
    NextRounds(chain, b, 8, HEAD_A_8, HEAD_W_8, HEAD_A_9);
    HeadRounds_9();
    NextRounds(chain, b, 9, HEAD_A_9, HEAD_W_9, HEAD_A_10);
  }

  lemma {:induction false} TailRounds_0()
    ensures RowRounds(0, TAIL_A_0, TAIL_W_0, TAIL_A_1)
  {
  }

  lemma {:induction false} TailRounds_1()
    ensures RowRounds(1, TAIL_A_1, TAIL_W_1, TAIL_A_2)
  {
  }

  lemma {:induction false} TailRounds_2()
    ensures RowRounds(2, TAIL_A_2, TAIL_W_2, TAIL_A_3)
  {
  }

  lemma {:induction false} TailRounds_3()
    ensures RowRounds(3, TAIL_A_3, TAIL_W_3, TAIL_A_4)
  {
  }

  lemma {:induction false} TailRounds_4()
    ensures RowRounds(4, TAIL_A_4, TAIL_W_4, TAIL_A_5)
  {
  }

  lemma {:induction false} TailRounds_5()
    ensures RowRounds(5, TAIL_A_5, TAIL_W_5, TAIL_A_6)
  {
  }

  lemma {:induction false} TailRounds_6()
    ensures RowRounds(6, TAIL_A_6, TAIL_W_6, TAIL_A_7)
  {
  }

  lemma {:induction false} TailRounds_7()
    ensures RowRounds(7, TAIL_A_7, TAIL_W_7, TAIL_A_8)
  {
  }

  lemma {:induction false} TailRounds_8()
    ensures RowRounds(8, TAIL_A_8, TAIL_W_8, TAIL_A_9)
  {
  }

  lemma {:induction false} TailRounds_9()
    ensures RowRounds(9, TAIL_A_9, TAIL_W_9, TAIL_A_10)
  {
  }

  lemma {:induction false} TailWords_0()
    ensures RowWords(TAIL_W_0, TAIL_W_1, TAIL_W_2)
  {
  }

  lemma {:induction false} TailWords_1()
    ensures RowWords(TAIL_W_1, TAIL_W_2, TAIL_W_3)
  {
  }

  lemma {:induction false} TailWords_2()
    ensures RowWords(TAIL_W_2, TAIL_W_3, TAIL_W_4)
  {
  }

  lemma {:induction false} TailWords_3()
    ensures RowWords(TAIL_W_3, TAIL_W_4, TAIL_W_5)
  {
  }

  lemma {:induction false} TailWords_4()
    ensures RowWords(TAIL_W_4, TAIL_W_5, TAIL_W_6)
  {
  }

  lemma {:induction false} TailWords_5()
    ensures RowWords(TAIL_W_5, TAIL_W_6, TAIL_W_7)
  {
  }

  lemma {:induction false} TailWords_6()
    ensures RowWords(TAIL_W_6, TAIL_W_7, TAIL_W_8)
  {
  }

  lemma {:induction false} TailWords_7()
    ensures RowWords(TAIL_W_7, TAIL_W_8, TAIL_W_9)
  {
  }

  lemma {:induction false} TailBlock(chain: Chain5, b: Block)
    requires WordsAt(b, 0, TAIL_W_0) && WordsAt(b, 1, TAIL_W_1) && VarsAt(chain, b, 0, TAIL_A_0)
    ensures VarsAt(chain, b, 10, TAIL_A_10)
  {
    TailWords_0();
    NextRow(b, 2, TAIL_W_0, TAIL_W_1, TAIL_W_2);
    TailWords_1();
    NextRow(b, 3, TAIL_W_1, TAIL_W_2, TAIL_W_3);
    TailWords_2();
    NextRow(b, 4, TAIL_W_2, TAIL_W_3, TAIL_W_4);
    TailWords_3();
    NextRow(b, 5, TAIL_W_3, TAIL_W_4, TAIL_W_5);
    TailWords_4();
    NextRow(b, 6, TAIL_W_4, TAIL_W_5, TAIL_W_6);
    TailWords_5();
    NextRow(b, 7, TAIL_W_5, TAIL_W_6, TAIL_W_7);
    TailWords_6();
    NextRow(b, 8, TAIL_W_6, TAIL_W_7, TAIL_W_8);
    TailWords_7();
    NextRow(b, 9, TAIL_W_7, TAIL_W_8, TAIL_W_9);
    TailRounds_0();
    NextRounds(chain, b, 0, TAIL_A_0, TAIL_W_0, TAIL_A_1);
    TailRounds_1();
    NextRounds(chain, b, 1, TAIL_A_1, TAIL_W_1, TAIL_A_2);
    TailRounds_2();
    NextRounds(chain, b, 2, TAIL_A_2, TAIL_W_2, TAIL_A_3);
    TailRounds_3();
    NextRounds(chain, b, 3, TAIL_A_3, TAIL_W_3, TAIL_A_4);
    TailRounds_4();
    NextRounds(chain, b, 4, TAIL_A_4, TAIL_W_4, TAIL_A_5);
    TailRounds_5();
    NextRounds(chain, b, 5, TAIL_A_5, TAIL_W_5, TAIL_A_6);
    TailRounds_6();
    NextRounds(chain, b, 6, TAIL_A_6, TAIL_W_6, TAIL_A_7);
    TailRounds_7();
    NextRounds(chain, b, 7, TAIL_A_7, TAIL_W_7, TAIL_A_8);
    TailRounds_8();
    NextRounds(chain, b, 8, TAIL_A_8, TAIL_W_8, TAIL_A_9);
    TailRounds_9();
    NextRounds(chain, b, 9, TAIL_A_9, TAIL_W_9, TAIL_A_10);
  }

  // ----- The two messages -----

  const HEAD_CHAIN: Chain5 := [Word(0xf4286818), Word(0xc37b27ae), Word(0x0408f581), Word(0x84677148), Word(0x4a566572)]
  const ABC_END: Chain5 := [Word(0xa9993e36), Word(0x4706816a), Word(0xba3e2571), Word(0x7850c26c), Word(0x9cd0d89d)]
  const TAIL_END: Chain5 := [Word(0x84983e44), Word(0x1c3bd26e), Word(0xbaae4aa1), Word(0xf95129e5), Word(0xe54670f1)]

  lemma {:induction false} AbcParsed(b: Block)
    requires b == Pad(ABC)
    ensures WordsAt(b, 0, ABC_W_0) && WordsAt(b, 1, ABC_W_1)
  {
    AbcPad(b);
    Parsed(b, 0, ABC_W_0);
    Parsed(b, 1, ABC_W_1);
  }

  lemma {:induction false} AbcEnds(b: Block)
    requires b == Pad(ABC)
    ensures Compress1(H1, b) == ABC_END
  {
    AbcParsed(b);
    Starts(H1, b, ABC_A_0);
    AbcBlock(H1, b);
    Ends(H1, b, ABC_A_10);
  }

  const ABC_DIGEST: seq<Byte> := [
    0xa9, 0x99, 0x3e, 0x36, 0x47, 0x06, 0x81, 0x6a, 0xba, 0x3e, 0x25, 0x71, 0x78, 0x50, 0xc2, 0x6c,
    0x9c, 0xd0, 0xd8, 0x9d
  ]

  lemma {:induction false} AbcBytes()
    ensures BytesAre(ABC_END[0], 0xa9, 0x99, 0x3e, 0x36)
    ensures BytesAre(ABC_END[1], 0x47, 0x06, 0x81, 0x6a)
    ensures BytesAre(ABC_END[2], 0xba, 0x3e, 0x25, 0x71)
    ensures BytesAre(ABC_END[3], 0x78, 0x50, 0xc2, 0x6c)
    ensures BytesAre(ABC_END[4], 0x9c, 0xd0, 0xd8, 0x9d)
  {
  }

  lemma {:induction false} AbcDigestIs()
    ensures Digest(ABC_END) == ABC_DIGEST
  {
    AbcBytes();
    DigestIs(ABC_END, ABC_DIGEST);
  }

  /** The first example. */
  lemma {:induction false} AbcDigest()
    ensures Sha1(ABC) == ABC_DIGEST
  {
    OneBlock(Compress1, H1, Pad(ABC), Pad(ABC));
    AbcEnds(Pad(ABC));
    AbcDigestIs();
  }

  lemma {:induction false} LongParsed()
    ensures WordsAt(LONG_1, 0, HEAD_W_0) && WordsAt(LONG_1, 1, HEAD_W_1)
    ensures WordsAt(LONG_2, 0, TAIL_W_0) && WordsAt(LONG_2, 1, TAIL_W_1)
  {
    LongLetters_0();
    LongLetters_1();
    LongWords();
    Parsed(LONG_1, 0, HEAD_W_0);
    Parsed(LONG_1, 1, HEAD_W_1);
    Parsed(LONG_2, 0, TAIL_W_0);
    Parsed(LONG_2, 1, TAIL_W_1);
  }

  lemma {:induction false} HeadEnds()
    ensures Compress1(H1, LONG_1) == HEAD_CHAIN
  {
    LongParsed();
    Starts(H1, LONG_1, HEAD_A_0);
    HeadBlock(H1, LONG_1);
    Ends(H1, LONG_1, HEAD_A_10);
  }

  lemma {:induction false} TailEnds()
    ensures Compress1(HEAD_CHAIN, LONG_2) == TAIL_END
  {
    LongParsed();
    Starts(HEAD_CHAIN, LONG_2, TAIL_A_0);
    TailBlock(HEAD_CHAIN, LONG_2);
    Ends(HEAD_CHAIN, LONG_2, TAIL_A_10);
  }

  const LONG_DIGEST: seq<Byte> := [
    0x84, 0x98, 0x3e, 0x44, 0x1c, 0x3b, 0xd2, 0x6e, 0xba, 0xae, 0x4a, 0xa1, 0xf9, 0x51, 0x29, 0xe5,
    0xe5, 0x46, 0x70, 0xf1
  ]

  lemma {:induction false} LongBytes()
    ensures BytesAre(TAIL_END[0], 0x84, 0x98, 0x3e, 0x44)
    ensures BytesAre(TAIL_END[1], 0x1c, 0x3b, 0xd2, 0x6e)
    ensures BytesAre(TAIL_END[2], 0xba, 0xae, 0x4a, 0xa1)
    ensures BytesAre(TAIL_END[3], 0xf9, 0x51, 0x29, 0xe5)
    ensures BytesAre(TAIL_END[4], 0xe5, 0x46, 0x70, 0xf1)
  {
  }

  lemma {:induction false} LongDigestIs()
    ensures Digest(TAIL_END) == LONG_DIGEST
  {
    LongBytes();
    DigestIs(TAIL_END, LONG_DIGEST);
  }

  /** The second example. */
  lemma {:induction false} LongDigest()
    ensures Sha1(LONG) == LONG_DIGEST
  {
    LongPad();
    TwoBlocks(Compress1, H1, Pad(LONG), LONG_1, LONG_2);
    HeadEnds();
    TailEnds();
    LongDigestIs();
  }
}
