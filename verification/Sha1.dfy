/** The streaming SHA-1 of src/sha1.c. */
module Sha1Stream {
  import opened Common
  import opened Fips180
  import opened ShaBuffer

  class Context {
    const data: array<Byte>
    var datalen: nat
    var bitlen: nat
    const state: array<Word>
    const k: seq<Word> := [Word(0x5a827999), Word(0x6ed9eba1), Word(0x8f1bbcdc), Word(0xca62c1d6)]
    /** The whole blocks consumed so far. */
    ghost var blocks: seq<Byte>

    ghost predicate Shape() {
      data.Length == 64 && state.Length == 5
    }

    /** The bit count and the state are those of the blocks so far. */
    ghost predicate Valid()
      reads this, state
    {
      && Shape()
      && datalen < 64
      && Counts(bitlen, |blocks|)
      && Consumed(state[..], blocks)
    }

    /** All bytes passed to Update so far: the blocks, and what is buffered. */
    ghost function Message(): seq<Byte>
      reads this, data
      requires Shape() && datalen <= 64
    {
      blocks + data[..datalen]
    }

    constructor ()
      ensures Valid() && Message() == [] && fresh(data) && fresh(state)
    {
      data := new Byte[64](i => 0);
      state := new Word[5](i => Word(0));
      datalen, bitlen, blocks := 0, 0, [];
      new;
      Seed();
      ChainStarts<Chain5>(Compress1, H1);
    }

    /** The initial hash value of sha1_init. */
    method Seed()
      requires Shape()
      modifies state
      ensures state[..] == H1
    {
      state[0] := Word(0x67452301);
      state[1] := Word(0xEFCDAB89);
      state[2] := Word(0x98BADCFE);
      state[3] := Word(0x10325476);
      state[4] := Word(0xc3d2e1f0);
    }

    /** The four loops of twenty rounds of sha1_transform. */
    method Rounds(m: array<Word>) returns (v: Vars5)
      requires Shape() && m.Length == 80
      ensures v == Rounds1(state[..], m[..])
    {
      var a, b, c, d, e := state[0], state[1], state[2], state[3], state[4];
      var i := 0;
      ghost var chain, w := state[..], m[..];
      while i < 20
        invariant 0 <= i <= 20
        invariant AfterRounds(chain, w, i, Vars5(a, b, c, d, e))
      {
        var t := Add(Add(Add(Add(Rotl5(a), Ch(b, c, d)), e), k[0]), m[i]);
        RoundsStep(chain, w, i, Vars5(a, b, c, d, e), Ch(b, c, d), k[0]);
        e := d;
        d := c;
        c := Rotl30(b);
        b := a;
        a := t;
        i := i + 1;
      }
      while i < 40
        invariant 20 <= i <= 40
        invariant AfterRounds(chain, w, i, Vars5(a, b, c, d, e))
      {
        var t := Add(Add(Add(Add(Rotl5(a), Parity(b, c, d)), e), k[1]), m[i]);
        RoundsStep(chain, w, i, Vars5(a, b, c, d, e), Parity(b, c, d), k[1]);
        e := d;
        d := c;
        c := Rotl30(b);
        b := a;
        a := t;
        i := i + 1;
      }
      while i < 60
        invariant 40 <= i <= 60
        invariant AfterRounds(chain, w, i, Vars5(a, b, c, d, e))
      {
        var t := Add(Add(Add(Add(Rotl5(a), Maj(b, c, d)), e), k[2]), m[i]);
        RoundsStep(chain, w, i, Vars5(a, b, c, d, e), Maj(b, c, d), k[2]);
        e := d;
        d := c;
        c := Rotl30(b);
        b := a;
        a := t;
        i := i + 1;
      }
      while i < 80
        invariant 60 <= i <= 80
        invariant AfterRounds(chain, w, i, Vars5(a, b, c, d, e))
      {
        var t := Add(Add(Add(Add(Rotl5(a), Parity(b, c, d)), e), k[3]), m[i]);
        RoundsStep(chain, w, i, Vars5(a, b, c, d, e), Parity(b, c, d), k[3]);
        e := d;
        d := c;
        c := Rotl30(b);
        b := a;
        a := t;
        i := i + 1;
      }
      return Vars5(a, b, c, d, e);
    }

    method FeedForward(v: Vars5)
      requires Shape()
      modifies state
      ensures state[..] == FeedForward1(old(state[..]), v)
    {
      ghost var h := state[..];
      state[0] := Add(state[0], v.a);
      state[1] := Add(state[1], v.b);
      state[2] := Add(state[2], v.c);
      state[3] := Add(state[3], v.d);
      state[4] := Add(state[4], v.e);
      SumsOf(h, v, state[..]);
    }

    /** sha1_transform: the next chaining value. */
    method Transform()
      requires Shape() && Consumed(state[..], blocks)
      modifies state
      ensures Consumed(state[..], blocks + data[..])
    {
      ChainGrows<Chain5>(Compress1, H1, state[..], blocks, data[..]);
      var m := Schedule(data[..]);
      var v := Rounds(m);
      FeedForward(v);
      assert state[..] == Compress1(old(state[..]), data[..]);
    }

    /** sha1_update. */
    method Update(bytes: seq<Byte>)
      requires Valid()
      modifies this, data, state
      ensures Valid() && Message() == old(Message()) + bytes
    {
      ghost var before := Message();
      var i := 0;
      while i < |bytes|
        invariant 0 <= i <= |bytes|
        invariant Valid() && Message() == before + bytes[..i]
      {
        assert bytes[..i + 1] == bytes[..i] + [bytes[i]];
        Take(bytes[i]);
        i := i + 1;
      }
    }

    /** The body of its loop: buffer one byte, and consume the block once it is full. */
    method Take(byte: Byte)
      requires Valid()
      modifies this, data, state
      ensures Valid() && Message() == old(Message()) + [byte]
    {
      data[datalen] := byte;
      datalen := datalen + 1;
      assert Message() == old(Message()) + [byte];
      if datalen == 64 {
        Transform();
        CountsMore(bitlen, |blocks|, 64);
        bitlen := Low64(bitlen + 512);
        blocks := blocks + data[..];
        datalen := 0;
      }
    }

    /** sha1_final: whatever the chunks were, the hash is that of the whole message. */
    method Final(hash: array<Byte>)
      requires Valid() && hash.Length >= 20 && hash != data
      modifies this, data, state, hash
      ensures hash[..20] == Sha1(old(Message()))
      ensures hash[20..] == old(hash[20..])
    {
      ghost var message := Message();
      CountsMore(bitlen, |blocks|, datalen);
      PadBuffer(message);
      bitlen := Low64(bitlen + 8 * datalen);
      PutLength(data, bitlen);
      Transform();
      Finished(state[..], message, blocks + data[..]);
      PutDigest(state, hash);
    }

    /** Its first part: the bit "1" and the zeros up to the length, which goes in a block of its
        own when it does not fit behind the rest. */
    method PadBuffer(ghost message: seq<Byte>)
      requires Valid() && message == Message()
      modifies this`blocks, data, state
      ensures Consumed(state[..], blocks) && blocks + (data[..56] + Be64(Low64(8 * |message|))) == Pad(message)
    {
      ghost var tail := data[..datalen];
      if datalen < 56 {
        Fill(data, datalen, 56);
        PadsOne(blocks, tail, data[..56]);
      } else {
        Fill(data, datalen, 64);
        PadsTwo(blocks, tail, data[..64]);
        assert data[..64] == data[..];
        Transform();
        blocks := blocks + data[..];
        Clear(data);
      }
    }
  }

  lemma {:induction false} Finished(chain: seq<Word>, m: seq<Byte>, padded: seq<Byte>)
    requires Consumed(chain, padded) && padded == Pad(m)
    ensures Digest(chain) == Sha1(m)
  {
    ChainIs<Chain5>(Compress1, H1, chain, padded);
  }

  /** `chain` is the chaining value after the whole blocks `full`. */
  ghost predicate Consumed(chain: seq<Word>, full: seq<Byte>) {
    |chain| == 5 && Chained<Chain5>(Compress1, H1, chain, full)
  }

  /** `w` is the message schedule of the block `b`; over the one value of `u`. */
  ghost predicate IsSchedule(b: Block, w: seq<Word>) {
    |w| == 80 && forall u {:trigger Words1(u)} :: u == b ==> w == Words1(u)
  }

  /** The first loop of sha1_transform: the block as sixteen words, its four bytes summed. */
  method Parse(data: Block, m: array<Word>, ghost w: seq<Word>)
    requires m.Length == 80 && IsSchedule(data, w)
    modifies m
    ensures m[..16] == w[..16]
  {
    var i, j := 0, 0;
    while i < 16
      invariant 0 <= i <= 16 && j == 4 * i
      invariant m[..i] == w[..i]
    {
      m[i] := SummedBytes(data[j], data[j + 1], data[j + 2], data[j + 3]);
      SumIsOr(data[j], data[j + 1], data[j + 2], data[j + 3]);
      ParsedStep(data, w, i, j);
      i, j := i + 1, j + 4;
    }
  }

  /** Its body: four bytes as one word. */
  function SummedBytes(a: Byte, b: Byte, c: Byte, d: Byte): Word {
    Word(((a as bv32) << 24) + ((b as bv32) << 16) + ((c as bv32) << 8) + (d as bv32))
  }

  lemma {:induction false} ParsedStep(b: Block, w: seq<Word>, i: nat, j: nat)
    requires IsSchedule(b, w) && i < 16 && j == 4 * i
    ensures w[i] == FourBytes(b[j], b[j + 1], b[j + 2], b[j + 3])
  {
    assert w == Words1(b);
  }

  /** The second loop: the schedule array m[80]. */
  method Schedule(data: Block) returns (m: array<Word>)
    ensures fresh(m) && m[..] == Words1(data)
  {
    m := new Word[80](i => Word(0));
    ghost var w := Words1(data);
    Parse(data, m, w);
    Expand(data, m, w);
    assert m[..] == m[..80] && w == w[..80];
  }

  method Expand(data: Block, m: array<Word>, ghost w: seq<Word>)
    requires m.Length == 80 && IsSchedule(data, w) && m[..16] == w[..16]
    modifies m
    ensures m[..80] == w[..80]
  {
    var i := 16;
    while i < 80
      invariant 16 <= i <= 80
      invariant m[..i] == w[..i]
    {
      ghost var done := m[..i];
      assert done[i - 3] == w[i - 3] && done[i - 8] == w[i - 8] && done[i - 14] == w[i - 14]
             && done[i - 16] == w[i - 16];
      ScheduleStep(data, w, i);
      m[i] := NextWord1(m[i - 3], m[i - 8], m[i - 14], m[i - 16]);
      i := i + 1;
    }
  }

  /** The four bytes of a word do not overlap, so summing them is the same as joining them. */
  lemma {:induction false} SumIsOr(a: Byte, b: Byte, c: Byte, d: Byte)
    ensures SummedBytes(a, b, c, d) == FourBytes(a, b, c, d)
  {
    ByteFits(a);
    ByteFits(b);
    ByteFits(c);
    ByteFits(d);
    BytesDoNotOverlap(a as bv32, b as bv32, c as bv32, d as bv32);
  }

  lemma {:induction false} ByteFits(a: Byte)
    ensures a as bv32 <= 255
  {
  }

  lemma {:induction false} BytesDoNotOverlap(a: bv32, b: bv32, c: bv32, d: bv32)
    requires a <= 255 && b <= 255 && c <= 255 && d <= 255
    ensures (a << 24) + (b << 16) + (c << 8) + d == (a << 24) | (b << 16) | (c << 8) | d
  {
  }

  lemma {:induction false} ScheduleStep(b: Block, w: seq<Word>, t: nat)
    requires IsSchedule(b, w) && 16 <= t < 80
    ensures w[t] == NextWord1(w[t - 3], w[t - 8], w[t - 14], w[t - 16])
  {
    assert w == Words1(b);
  }

  /** One round of the indexed definition is one pass of the loop for its twenty rounds. */
  lemma {:induction false} RoundsStep(chain: Chain5, w: seq<Word>, i: nat, v: Vars5, f: Word, k: Word)
    requires i < |w| <= 20 * |K1| && AfterRounds(chain, w, i, v)
    requires f == F(i, v.b, v.c, v.d) && k == K1[i / 20]
    ensures AfterRounds(chain, w, i + 1,
                        Vars5(Add(Add(Add(Add(Rotl5(v.a), f), v.e), k), w[i]), v.a, Rotl30(v.b), v.c, v.d))
  {
    assert w[..i + 1][..i] == w[..i] && w[..i + 1][i] == w[i];
    assert Rounds1(chain, w[..i]) == v;
  }

  /** The working variables after `i` rounds. */
  ghost predicate AfterRounds(chain: Chain5, w: seq<Word>, i: nat, v: Vars5)
    requires i <= |w| <= 20 * |K1|
  {
    forall u {:trigger Rounds1(chain, u)} :: u == w[..i] ==> v == Rounds1(chain, u)
  }

  lemma {:induction false} SumsOf(h: Chain5, v: Vars5, r: Chain5)
    requires r[0] == Add(h[0], v.a) && r[1] == Add(h[1], v.b) && r[2] == Add(h[2], v.c) && r[3] == Add(h[3], v.d)
             && r[4] == Add(h[4], v.e)
    ensures r == FeedForward1(h, v)
  {
  }
}
