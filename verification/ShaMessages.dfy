/** The two messages of the examples that NIST publishes for FIPS 180-4, and the words of their padded
    blocks. */
module ShaMessages {
  import opened Common
  import opened Fips180

  /** Eight words: of a schedule, or of what a variable becomes in eight rounds. */
  datatype Row = Row(x0: bv32, x1: bv32, x2: bv32, x3: bv32, x4: bv32, x5: bv32, x6: bv32, x7: bv32)

  function Nth(r: Row, i: nat): bv32
    requires i < 8
  {
    if i < 4 then if i == 0 then r.x0 else if i == 1 then r.x1 else if i == 2 then r.x2 else r.x3
    else if i == 4 then r.x4 else if i == 5 then r.x5 else if i == 6 then r.x6 else r.x7
  }

  /** Word `i` of three rows. */
  function Among(p: Row, q: Row, r: Row, i: nat): Word
    requires i < 24
  {
    Word(if i < 8 then Nth(p, i) else if i < 16 then Nth(q, i - 8) else Nth(r, i - 16))
  }

  // ----- The words of a block -----

  /** Word `t` of the block, folded. */
  ghost predicate WordIs(b: Block, t: nat, w: Word) {
    t < 16 && forall u {:trigger WordOf(b, u)} :: 0 <= u == t ==> WordOf(b, u) == w
  }

  /** The words of row `j` of the block, one by one. */
  ghost predicate RowIs(b: Block, j: nat, r: Row) {
    && WordIs(b, 8 * j, Word(r.x0)) && WordIs(b, 8 * j + 1, Word(r.x1))
    && WordIs(b, 8 * j + 2, Word(r.x2)) && WordIs(b, 8 * j + 3, Word(r.x3))
    && WordIs(b, 8 * j + 4, Word(r.x4)) && WordIs(b, 8 * j + 5, Word(r.x5))
    && WordIs(b, 8 * j + 6, Word(r.x6)) && WordIs(b, 8 * j + 7, Word(r.x7))
  }

  lemma {:induction false} RowWord(b: Block, j: nat, r: Row, i: nat)
    requires j < 2 && i < 8 && RowIs(b, j, r)
    ensures WordIs(b, 8 * j + i, Word(Nth(r, i)))
  {
    if i < 4 { assert i in {0, 1, 2, 3}; } else { assert i in {4, 5, 6, 7}; }
  }

  lemma {:induction false} ZeroWord(b: Block, i: nat)
    requires i < 16 && forall k :: 4 * i <= k < 4 * i + 4 ==> b[k] == 0
    ensures WordIs(b, i, Word(0))
  {
    assert FourBytes(0, 0, 0, 0) == Word(0);
  }

  lemma {:induction false} Length(v: nat, hi: Byte, lo: Byte)
    requires v == 256 * hi + lo
    ensures Be64(v) == [0, 0, 0, 0, 0, 0, hi, lo]
  {
    assert v / 256 == hi && v % 256 == lo && hi % 256 == hi;
    ShiftStep(v, 0);
    ShiftStep(v, 1);
    forall n | 2 <= n < 8 ensures Shift(v, n) == 0 { ShiftsOut(v, n); }
  }

  lemma {:induction false} ShiftsOut(v: nat, n: nat)
    requires n >= 2 && Shift(v, 1) < 256
    ensures Shift(v, n) == 0
  {
    ShiftStep(v, n - 1);
    if n > 2 { ShiftsOut(v, n - 1); }
  }

  /** The bytes of a word, the most significant first. */
  predicate BytesAre(w: Word, a: Byte, b: Byte, c: Byte, d: Byte) {
    ByteOf(w, 0) == a && ByteOf(w, 1) == b && ByteOf(w, 2) == c && ByteOf(w, 3) == d
  }

  lemma {:induction false} DigestIs(h: seq<Word>, d: seq<Byte>)
    requires |d| == 4 * |h|
    requires forall j :: 0 <= j < |h| ==> BytesAre(h[j], d[4 * j], d[4 * j + 1], d[4 * j + 2], d[4 * j + 3])
    ensures Digest(h) == d
  {
    forall k | 0 <= k < |d| ensures Digest(h)[k] == d[k] {
      var j := k / 4;
      assert BytesAre(h[j], d[4 * j], d[4 * j + 1], d[4 * j + 2], d[4 * j + 3]);
      assert k % 4 in {0, 1, 2, 3};
    }
  }

  // ----- "abc" -----

  const ABC: seq<Byte> := [0x61, 0x62, 0x63]

  lemma {:induction false} AbcPad(b: Block)
    requires b == Pad(ABC)
    ensures WordIs(b, 0, Word(0x61626380)) && WordIs(b, 15, Word(24))
    ensures forall i :: 0 < i < 15 ==> WordIs(b, i, Word(0))
  {
    Length(24, 0, 24);
    assert b == ABC + [0x80] + Zeros(52) + Be64(24);
    assert WordOf(b, 0) == FourBytes(0x61, 0x62, 0x63, 0x80) == Word(0x61626380);
    assert WordOf(b, 15) == FourBytes(0, 0, 0, 24) == Word(24);
    forall i | 0 < i < 15 ensures WordIs(b, i, Word(0)) { ZeroWord(b, i); }
  }

  // ----- "abcdbcdecdefdefgefghfghighijhijkijkljklmklmnlmnomnopnopq" -----

  /** Fourteen times four letters in a row: with the padding, two blocks. */
  const LONG: seq<Byte> := seq(56, k requires 0 <= k < 56 => 0x61 + k / 4 + k % 4)

  const LONG_1: Block := LONG + [0x80] + Zeros(7)
  const LONG_2: Block := Zeros(56) + Be64(448)

  lemma {:induction false} LongByte(i: nat, n: nat)
    requires i < 14 && n < 4
    ensures LONG_1[4 * i + n] == 0x61 + i + n
  {
    assert (4 * i + n) / 4 == i && (4 * i + n) % 4 == n;
    assert LONG_1[4 * i + n] == LONG[4 * i + n];
  }

  lemma {:induction false} LongWord(i: nat, a: Byte, b: Byte, c: Byte, d: Byte)
    requires i < 14 && a == 0x61 + i && b == a + 1 && c == a + 2 && d == a + 3
    ensures WordOf(LONG_1, i) == FourBytes(a, b, c, d)
  {
    LongByte(i, 0);
    LongByte(i, 1);
    LongByte(i, 2);
    LongByte(i, 3);
  }

  lemma {:induction false} LongLetters_0()
    ensures WordIs(LONG_1, 0, Word(0x61626364))
    ensures WordIs(LONG_1, 1, Word(0x62636465))
    ensures WordIs(LONG_1, 2, Word(0x63646566))
    ensures WordIs(LONG_1, 3, Word(0x64656667))
    ensures WordIs(LONG_1, 4, Word(0x65666768))
    ensures WordIs(LONG_1, 5, Word(0x66676869))
    ensures WordIs(LONG_1, 6, Word(0x6768696a))
  {
    LongWord(0, 0x61, 0x62, 0x63, 0x64);
    LongWord(1, 0x62, 0x63, 0x64, 0x65);
    LongWord(2, 0x63, 0x64, 0x65, 0x66);
    LongWord(3, 0x64, 0x65, 0x66, 0x67);
    LongWord(4, 0x65, 0x66, 0x67, 0x68);
    LongWord(5, 0x66, 0x67, 0x68, 0x69);
    LongWord(6, 0x67, 0x68, 0x69, 0x6a);
  }

  lemma {:induction false} LongLetters_1()
    ensures WordIs(LONG_1, 7, Word(0x68696a6b))
    ensures WordIs(LONG_1, 8, Word(0x696a6b6c))
    ensures WordIs(LONG_1, 9, Word(0x6a6b6c6d))
    ensures WordIs(LONG_1, 10, Word(0x6b6c6d6e))
    ensures WordIs(LONG_1, 11, Word(0x6c6d6e6f))
    ensures WordIs(LONG_1, 12, Word(0x6d6e6f70))
    ensures WordIs(LONG_1, 13, Word(0x6e6f7071))
  {
    LongWord(7, 0x68, 0x69, 0x6a, 0x6b);
    LongWord(8, 0x69, 0x6a, 0x6b, 0x6c);
    LongWord(9, 0x6a, 0x6b, 0x6c, 0x6d);
    LongWord(10, 0x6b, 0x6c, 0x6d, 0x6e);
    LongWord(11, 0x6c, 0x6d, 0x6e, 0x6f);
    LongWord(12, 0x6d, 0x6e, 0x6f, 0x70);
    LongWord(13, 0x6e, 0x6f, 0x70, 0x71);
  }

  lemma {:induction false} LongWords()
    ensures WordIs(LONG_1, 14, Word(0x80000000)) && WordIs(LONG_1, 15, Word(0))
    ensures WordIs(LONG_2, 15, Word(0x1c0)) && forall i :: 0 <= i < 15 ==> WordIs(LONG_2, i, Word(0))
  {
    assert WordOf(LONG_1, 14) == FourBytes(0x80, 0, 0, 0) == Word(0x80000000);
    ZeroWord(LONG_1, 15);
    Length(448, 1, 0xc0);
    assert WordOf(LONG_2, 15) == FourBytes(0, 0, 1, 0xc0) == Word(0x1c0);
    forall i | 0 <= i < 15 ensures WordIs(LONG_2, i, Word(0)) { ZeroWord(LONG_2, i); }
  }

  lemma {:induction false} LongPad()
    ensures Pad(LONG) == LONG_1 + LONG_2
  {
    PadsTwo([], LONG, LONG + [0x80] + Zeros(7));
  }

  // ----- Messages of one and of two blocks -----

  lemma {:induction false} TwoBlocks<H>(compress: (H, Block) -> H, h: H, m: seq<Byte>, b: Block, c: Block)
    requires m == b + c
    ensures Iterate(compress, h, m) == compress(compress(h, b), c)
  {
    IterateBlock(compress, h, [], b);
    IterateBlock(compress, h, b, c);
    assert [] + b == b;
  }

  lemma {:induction false} OneBlock<H>(compress: (H, Block) -> H, h: H, m: seq<Byte>, b: Block)
    requires m == b
    ensures Iterate(compress, h, m) == compress(h, b)
  {
    IterateBlock(compress, h, [], b);
    assert [] + b == b;
  }
}
