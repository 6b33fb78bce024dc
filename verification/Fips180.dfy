/** SHA-1 and SHA-256 as FIPS 180-4 defines them, one shot over a message of bytes. */
module Fips180 {
  import opened Common

  /** A 32-bit word. */
  datatype Word = Word(bits: bv32)

  /** Section 3.2: addition modulo 2^32. */
  function Add(x: Word, y: Word): Word { Word(x.bits + y.bits) }

  // ----- Section 4.1: functions -----

  /** ROTL of 1, 5 and 30 places, and in the four sigmas ROTR written out as its two shifts. */
  function Rotl1(x: Word): Word { Word((x.bits << 1) | (x.bits >> 31)) }
  function Rotl5(x: Word): Word { Word((x.bits << 5) | (x.bits >> 27)) }
  function Rotl30(x: Word): Word { Word((x.bits << 30) | (x.bits >> 2)) }

  function Ch(x: Word, y: Word, z: Word): Word { Word((x.bits & y.bits) ^ (!x.bits & z.bits)) }
  function Parity(x: Word, y: Word, z: Word): Word { Word(x.bits ^ y.bits ^ z.bits) }
  function Maj(x: Word, y: Word, z: Word): Word { Word((x.bits & y.bits) ^ (x.bits & z.bits) ^ (y.bits & z.bits)) }

  function BigSigma0(x: Word): Word {
    Word(((x.bits >> 2) | (x.bits << 30)) ^ ((x.bits >> 13) | (x.bits << 19)) ^ ((x.bits >> 22) | (x.bits << 10)))
  }
  function BigSigma1(x: Word): Word {
    Word(((x.bits >> 6) | (x.bits << 26)) ^ ((x.bits >> 11) | (x.bits << 21)) ^ ((x.bits >> 25) | (x.bits << 7)))
  }
  function SmallSigma0(x: Word): Word {
    Word(((x.bits >> 7) | (x.bits << 25)) ^ ((x.bits >> 18) | (x.bits << 14)) ^ (x.bits >> 3))
  }
  function SmallSigma1(x: Word): Word {
    Word(((x.bits >> 17) | (x.bits << 15)) ^ ((x.bits >> 19) | (x.bits << 13)) ^ (x.bits >> 10))
  }

  /** Section 4.1.1: the one function of SHA-1 that is indexed by the round. */
  function F(t: nat, x: Word, y: Word, z: Word): Word {
    if t < 20 then Ch(x, y, z)
    else if t < 40 then Parity(x, y, z)
    else if t < 60 then Maj(x, y, z)
    else Parity(x, y, z)
  }

  // ----- Section 4.2: constants -----

  /** One constant for every twenty rounds of SHA-1. */
  const K1: seq<Word> := [Word(0x5a827999), Word(0x6ed9eba1), Word(0x8f1bbcdc), Word(0xca62c1d6)]

  /** The round constants of SHA-256, by eights. */
  const K256_0: seq<Word> := [
    Word(0x428a2f98), Word(0x71374491), Word(0xb5c0fbcf), Word(0xe9b5dba5),
    Word(0x3956c25b), Word(0x59f111f1), Word(0x923f82a4), Word(0xab1c5ed5)
  ]
  const K256_1: seq<Word> := [
    Word(0xd807aa98), Word(0x12835b01), Word(0x243185be), Word(0x550c7dc3),
    Word(0x72be5d74), Word(0x80deb1fe), Word(0x9bdc06a7), Word(0xc19bf174)
  ]
  const K256_2: seq<Word> := [
    Word(0xe49b69c1), Word(0xefbe4786), Word(0x0fc19dc6), Word(0x240ca1cc),
    Word(0x2de92c6f), Word(0x4a7484aa), Word(0x5cb0a9dc), Word(0x76f988da)
  ]
  const K256_3: seq<Word> := [
    Word(0x983e5152), Word(0xa831c66d), Word(0xb00327c8), Word(0xbf597fc7),
    Word(0xc6e00bf3), Word(0xd5a79147), Word(0x06ca6351), Word(0x14292967)
  ]
  const K256_4: seq<Word> := [
    Word(0x27b70a85), Word(0x2e1b2138), Word(0x4d2c6dfc), Word(0x53380d13),
    Word(0x650a7354), Word(0x766a0abb), Word(0x81c2c92e), Word(0x92722c85)
  ]
  const K256_5: seq<Word> := [
    Word(0xa2bfe8a1), Word(0xa81a664b), Word(0xc24b8b70), Word(0xc76c51a3),
    Word(0xd192e819), Word(0xd6990624), Word(0xf40e3585), Word(0x106aa070)
  ]
  const K256_6: seq<Word> := [
    Word(0x19a4c116), Word(0x1e376c08), Word(0x2748774c), Word(0x34b0bcb5),
    Word(0x391c0cb3), Word(0x4ed8aa4a), Word(0x5b9cca4f), Word(0x682e6ff3)
  ]
  const K256_7: seq<Word> := [
    Word(0x748f82ee), Word(0x78a5636f), Word(0x84c87814), Word(0x8cc70208),
    Word(0x90befffa), Word(0xa4506ceb), Word(0xbef9a3f7), Word(0xc67178f2)
  ]
  const K256: seq<Word> := K256_0 + K256_1 + K256_2 + K256_3 + K256_4 + K256_5 + K256_6 + K256_7

  const H256: Chain8 := [
    Word(0x6a09e667), Word(0xbb67ae85), Word(0x3c6ef372), Word(0xa54ff53a), Word(0x510e527f), Word(0x9b05688c),
    Word(0x1f83d9ab), Word(0x5be0cd19)
  ]

  const H1: Chain5 := [Word(0x67452301), Word(0xefcdab89), Word(0x98badcfe), Word(0x10325476), Word(0xc3d2e1f0)]

  // ----- Section 5.1.1: padding -----

  /** The number of zero bytes between the bit "1" and the length: the least that fills a block. */
  function PadZeros(n: nat): (z: nat)
    ensures z < 64 && (n + 1 + z) % 64 == 56 && (n + 9 + z) % 64 == 0
  {
    (119 - n % 64) % 64
  }

  function Zeros(n: nat): (z: seq<Byte>)
    ensures |z| == n && forall i :: 0 <= i < n ==> z[i] == 0
  {
    seq(n, i => 0)
  }

  const TWO64: nat := 0x1_0000_0000_0000_0000

  /** The 64 low bits: what a 64-bit counter holds. */
  function Low64(v: nat): (r: nat)
    ensures r < TWO64
  {
    if v < TWO64 then v else Low64(v - TWO64)
  }

  /** The counter may wrap around at every step or once at the end. */
  lemma {:induction false} Low64Sum(v: nat, w: nat, sum: nat)
    requires sum == v + w
    ensures Low64(Low64(v) + w) == Low64(sum)
  {
    if v >= TWO64 { Low64Sum(v - TWO64, w, sum - TWO64); }
  }

  /** A number shifted down by `n` bytes. */
  function Shift(v: nat, n: nat): nat {
    if n == 0 then v else Shift(v / 256, n - 1)
  }

  /** The eight low bytes of a number, the most significant first. */
  function Be64(v: nat): (b: seq<Byte>)
    ensures |b| == 8
  {
    seq(8, i requires 0 <= i < 8 => Shift(v, 7 - i) % 256)
  }

  function Pow256(n: nat): nat { if n == 0 then 1 else 256 * Pow256(n - 1) }

  lemma {:induction false} ShiftStep(v: nat, n: nat)
    ensures Shift(v, n + 1) == Shift(v, n) / 256
  {
    if n > 0 { ShiftStep(v / 256, n - 1); }
  }

  lemma {:induction false} ShiftBound(v: nat, k: nat, n: nat)
    requires v < Pow256(k + n)
    ensures Shift(v, n) < Pow256(k)
  {
    if n > 0 { ShiftBound(v / 256, k, n - 1); }
  }

  /** Bytes as a number, the most significant first. */
  function Number(b: seq<Byte>): nat {
    if b == [] then 0 else 256 * Number(b[..|b| - 1]) + b[|b| - 1]
  }

  lemma {:induction false} Be64Front(v: nat, k: nat)
    requires v < TWO64 && k <= 8
    ensures Number(Be64(v)[..k]) == Shift(v, 8 - k)
  {
    if k == 0 {
      assert Pow256(8) == TWO64;
      ShiftBound(v, 0, 8);
    } else {
      Be64Front(v, k - 1);
      ShiftStep(v, 8 - k);
      assert Be64(v)[..k][..k - 1] == Be64(v)[..k - 1];
    }
  }

  lemma {:induction false} Be64Number(v: nat)
    requires v < TWO64
    ensures Number(Be64(v)) == v
  {
    Be64Front(v, 8);
    assert Be64(v)[..8] == Be64(v);
  }

  lemma {:induction false} Be64Injective(v: nat, w: nat)
    requires v < TWO64 && w < TWO64 && Be64(v) == Be64(w)
    ensures v == w
  {
    Be64Number(v);
    Be64Number(w);
  }

  /** What follows a message of `n` bytes. */
  function Padding(n: nat): (p: seq<Byte>)
    ensures |p| == 9 + PadZeros(n) && (n + |p|) % 64 == 0
  {
    [0x80] + Zeros(PadZeros(n)) + Be64(Low64(8 * n))
  }

  function Pad(m: seq<Byte>): (p: seq<Byte>)
    ensures |p| % 64 == 0
  {
    m + Padding(|m|)
  }

  /** When the length fits behind the bytes `tail` after the whole blocks `full`, the padding makes one
      block: `head` and the length. */
  lemma {:induction false} PadsOne(full: seq<Byte>, tail: seq<Byte>, head: seq<Byte>)
    requires |full| % 64 == 0 && |tail| < 56 && head == tail + [0x80] + Zeros(56 - |tail| - 1)
    ensures full + (head + Be64(Low64(8 * |full + tail|))) == Pad(full + tail)
  {
    assert PadZeros(|full + tail|) == 55 - |tail|;
  }

  /** When it does not, the padding makes two. */
  lemma {:induction false} PadsTwo(full: seq<Byte>, tail: seq<Byte>, first: seq<Byte>)
    requires |full| % 64 == 0 && 56 <= |tail| < 64 && first == tail + [0x80] + Zeros(64 - |tail| - 1)
    ensures full + first + (Zeros(56) + Be64(Low64(8 * |full + tail|))) == Pad(full + tail)
  {
    assert PadZeros(|full + tail|) == 119 - |tail|;
    assert Zeros(119 - |tail|) == Zeros(63 - |tail|) + Zeros(56);
  }

  lemma {:induction false} PadEnd(m: seq<Byte>)
    requires 8 * |m| < TWO64
    ensures |Pad(m)| >= 8 && Pad(m)[|Pad(m)| - 8..] == Be64(8 * |m|)
  {
    assert Padding(|m|)[|Padding(|m|)| - 8..] == Be64(8 * |m|);
  }

  /** The padding is injective on every message that the standard admits. */
  lemma {:induction false} PadInjective(a: seq<Byte>, b: seq<Byte>)
    requires 8 * |a| < TWO64 && 8 * |b| < TWO64 && Pad(a) == Pad(b)
    ensures a == b
  {
    PadEnd(a);
    PadEnd(b);
    Be64Injective(8 * |a|, 8 * |b|);
    assert a == Pad(a)[..|a|] && b == Pad(b)[..|b|];
  }

  // ----- Section 5.2.1: parsing -----

  type Block = s: seq<Byte> | |s| == 64 witness seq(64, i => 0)

  /** Four bytes as a word, the most significant first. */
  function FourBytes(a: Byte, b: Byte, c: Byte, d: Byte): Word {
    Word(((a as bv32) << 24) | ((b as bv32) << 16) | ((c as bv32) << 8) | (d as bv32))
  }

  function WordOf(b: seq<Byte>, i: nat): Word
    requires 4 * i + 4 <= |b|
  {
    FourBytes(b[4 * i], b[4 * i + 1], b[4 * i + 2], b[4 * i + 3])
  }

  // ----- Section 6: computation -----

  type Chain8 = s: seq<Word> | |s| == 8 witness seq(8, i => Word(0))
  type Chain5 = s: seq<Word> | |s| == 5 witness seq(5, i => Word(0))

  /** The chaining value after all blocks of `m`. */
  function Iterate<H>(compress: (H, Block) -> H, h: H, m: seq<Byte>): H
    requires |m| % 64 == 0
  {
    if |m| == 0 then h
    else compress(Iterate(compress, h, m[..|m| - 64]), m[|m| - 64..])
  }

  lemma {:induction false} IterateBlock<H>(compress: (H, Block) -> H, h: H, m: seq<Byte>, b: Block)
    requires |m| % 64 == 0
    ensures Iterate(compress, h, m + b) == compress(Iterate(compress, h, m), b)
  {
    assert (m + b)[..|m|] == m && (m + b)[|m|..] == b;
  }

  /** `chain` is the chaining value after the whole blocks `full`. (Over the one value of `m`, so that
      a proof unfolds the chain only where it names it.) */
  ghost predicate Chained<H(!new)>(compress: (H, Block) -> H, h: H, chain: H, full: seq<Byte>) {
    && |full| % 64 == 0
    && (forall m {:trigger Iterate(compress, h, m)} :: m == full ==> chain == Iterate(compress, h, m))
  }

  lemma {:induction false} ChainStarts<H(!new)>(compress: (H, Block) -> H, h: H)
    ensures Chained(compress, h, h, [])
  {
  }

  lemma {:induction false} ChainGrows<H(!new)>(compress: (H, Block) -> H, h: H, chain: H, full: seq<Byte>, block: Block)
    requires Chained(compress, h, chain, full)
    ensures Chained(compress, h, compress(chain, block), full + block)
  {
    IterateBlock(compress, h, full, block);
  }

  lemma {:induction false} ChainIs<H(!new)>(compress: (H, Block) -> H, h: H, chain: H, full: seq<Byte>)
    requires Chained(compress, h, chain, full)
    ensures chain == Iterate(compress, h, full)
  {
  }

  /** The bytes of a sequence of words, each most significant first. */
  function Digest(h: seq<Word>): (d: seq<Byte>)
    ensures |d| == 4 * |h|
  {
    seq(4 * |h|, k requires 0 <= k < 4 * |h| => ByteOf(h[k / 4], k % 4))
  }

  function ByteOf(w: Word, j: nat): Byte
    requires j < 4
  {
    var shifted :=
      if j == 0 then w.bits >> 24 else if j == 1 then w.bits >> 16 else if j == 2 then w.bits >> 8 else w.bits;
    (shifted & 0xff) as int
  }

  // ----- Section 6.2: SHA-256 -----

  function NextWord256(w2: Word, w7: Word, w15: Word, w16: Word): Word {
    Add(Add(Add(SmallSigma1(w2), w7), SmallSigma0(w15)), w16)
  }

  function Schedule256(b: Block, t: nat): Word {
    if t < 16 then WordOf(b, t)
    else NextWord256(Schedule256(b, t - 2), Schedule256(b, t - 7), Schedule256(b, t - 15), Schedule256(b, t - 16))
  }

  function Words256(b: Block): (w: seq<Word>)
    ensures |w| == 64
  {
    seq(64, t requires t >= 0 => Schedule256(b, t))
  }

  datatype Vars8 = Vars8(a: Word, b: Word, c: Word, d: Word, e: Word, f: Word, g: Word, h: Word)

  function Round256(v: Vars8, k: Word, w: Word): Vars8 {
    var t1 := Add(Add(Add(Add(v.h, BigSigma1(v.e)), Ch(v.e, v.f, v.g)), k), w);
    var t2 := Add(BigSigma0(v.a), Maj(v.a, v.b, v.c));
    Vars8(Add(t1, t2), v.a, v.b, v.c, Add(v.d, t1), v.e, v.f, v.g)
  }

  /** The working variables after one round for every word of the schedule `w`. */
  function Rounds256(chain: Chain8, w: seq<Word>): Vars8
    requires |w| <= |K256|
  {
    if w == [] then
      Vars8(chain[0], chain[1], chain[2], chain[3], chain[4], chain[5], chain[6], chain[7])
    else
      var t := |w| - 1;
      Round256(Rounds256(chain, w[..t]), K256[t], w[t])
  }

  function FeedForward256(chain: Chain8, v: Vars8): Chain8 {
    [Add(chain[0], v.a), Add(chain[1], v.b), Add(chain[2], v.c), Add(chain[3], v.d),
     Add(chain[4], v.e), Add(chain[5], v.f), Add(chain[6], v.g), Add(chain[7], v.h)]
  }

  function Compress256(chain: Chain8, block: Block): Chain8 {
    FeedForward256(chain, Rounds256(chain, Words256(block)))
  }

  function Sha256(m: seq<Byte>): (d: seq<Byte>)
    ensures |d| == 32
  {
    Digest(Iterate(Compress256, H256, Pad(m)))
  }

  // ----- Section 6.1: SHA-1 -----

  function Xor4(w: Word, x: Word, y: Word, z: Word): Word { Word(w.bits ^ x.bits ^ y.bits ^ z.bits) }

  function NextWord1(w3: Word, w8: Word, w14: Word, w16: Word): Word {
    Rotl1(Xor4(w3, w8, w14, w16))
  }

  function Schedule1(b: Block, t: nat): Word {
    if t < 16 then WordOf(b, t)
    else NextWord1(Schedule1(b, t - 3), Schedule1(b, t - 8), Schedule1(b, t - 14), Schedule1(b, t - 16))
  }

  function Words1(b: Block): (w: seq<Word>)
    ensures |w| == 80
  {
    seq(80, t requires t >= 0 => Schedule1(b, t))
  }

  datatype Vars5 = Vars5(a: Word, b: Word, c: Word, d: Word, e: Word)

  function Round1(v: Vars5, f: Word, k: Word, w: Word): Vars5 {
    Vars5(Add(Add(Add(Add(Rotl5(v.a), f), v.e), k), w), v.a, Rotl30(v.b), v.c, v.d)
  }

  /** The working variables after one round for every word of the schedule `w`. */
  function Rounds1(chain: Chain5, w: seq<Word>): Vars5
    requires |w| <= 20 * |K1|
  {
    if w == [] then
      Vars5(chain[0], chain[1], chain[2], chain[3], chain[4])
    else
      var t := |w| - 1;
      var v := Rounds1(chain, w[..t]);
      Round1(v, F(t, v.b, v.c, v.d), K1[t / 20], w[t])
  }

  function FeedForward1(chain: Chain5, v: Vars5): Chain5 {
    [Add(chain[0], v.a), Add(chain[1], v.b), Add(chain[2], v.c), Add(chain[3], v.d), Add(chain[4], v.e)]
  }

  function Compress1(chain: Chain5, block: Block): Chain5 {
    FeedForward1(chain, Rounds1(chain, Words1(block)))
  }

  function Sha1(m: seq<Byte>): (d: seq<Byte>)
    ensures |d| == 20
  {
    Digest(Iterate(Compress1, H1, Pad(m)))
  }
}
