/** The streaming SHA-256 of src/sha256.c. */
module Sha256Stream {
  import opened Common
  import opened Fips180
  import opened ShaBuffer

  class Context {
    const data: array<Byte>
    var datalen: nat
    var bitlen: nat
    const state: array<Word>
    /** The whole blocks consumed so far. */
    ghost var blocks: seq<Byte>

    ghost predicate Shape() {
      data.Length == 64 && state.Length == 8
    }

    /** The bit count and the state are those of the blocks so far. */
    ghost predicate Valid()
      reads this, state
    {
      && Shape()
      && datalen < 64
      && Counts(bitlen, |blocks|)
      && Consumed(state[..], blocks)
    }

    /** All bytes passed to Update so far: the blocks, and what is buffered. */
    ghost function Message(): seq<Byte>
      reads this, data
      requires Shape() && datalen <= 64
    {
      blocks + data[..datalen]
    }

    constructor ()
      ensures Valid() && Message() == [] && fresh(data) && fresh(state)
    {
      data := new Byte[64](i => 0);
      state := new Word[8](i => Word(0));
      datalen, bitlen, blocks := 0, 0, [];
      new;
      Seed();
      ChainStarts<Chain8>(Compress256, H256);
    }

    /** The initial hash value of sha256_init. */
    method Seed()
      requires Shape()
      modifies state
      ensures state[..] == H256
    {
      state[0] := Word(0x6a09e667);
      state[1] := Word(0xbb67ae85);
      state[2] := Word(0x3c6ef372);
      state[3] := Word(0xa54ff53a);
      state[4] := Word(0x510e527f);
      state[5] := Word(0x9b05688c);
      state[6] := Word(0x1f83d9ab);
      state[7] := Word(0x5be0cd19);
    }

    /** The 64 rounds of sha256_transform on the working variables. */
    method Rounds(m: array<Word>) returns (v: Vars8)
      requires Shape() && m.Length == 64
      ensures v == Rounds256(state[..], m[..])
    {
      var a, b, c, d := state[0], state[1], state[2], state[3];
      var e, f, g, h := state[4], state[5], state[6], state[7];
      var i := 0;
      ghost var chain, w := state[..], m[..];
      while i < 64
        invariant 0 <= i <= 64
        invariant AfterRounds(chain, w, i, Vars8(a, b, c, d, e, f, g, h))
      {
        RoundsStep(chain, w, i, Vars8(a, b, c, d, e, f, g, h));
        var t1 := Add(Add(Add(Add(h, BigSigma1(e)), Ch(e, f, g)), K256[i]), m[i]);
        var t2 := Add(BigSigma0(a), Maj(a, b, c));
        RoundIs(Vars8(a, b, c, d, e, f, g, h), K256[i], m[i], t1, t2);
        h := g;
        g := f;
        f := e;
        e := Add(d, t1);
        d := c;
        c := b;
        b := a;
        a := Add(t1, t2);
        i := i + 1;
      }
      return Vars8(a, b, c, d, e, f, g, h);
    }

    method FeedForward(v: Vars8)
      requires Shape()
      modifies state
      ensures state[..] == FeedForward256(old(state[..]), v)
    {
      ghost var h := state[..];
      state[0] := Add(state[0], v.a);
      state[1] := Add(state[1], v.b);
      state[2] := Add(state[2], v.c);
      state[3] := Add(state[3], v.d);
      state[4] := Add(state[4], v.e);
      state[5] := Add(state[5], v.f);
      state[6] := Add(state[6], v.g);
      state[7] := Add(state[7], v.h);
      SumsOf(h, v, state[..]);
    }

    /** sha256_transform: the next chaining value. */
    method Transform()
      requires Shape() && Consumed(state[..], blocks)
      modifies state
      ensures Consumed(state[..], blocks + data[..])
    {
      ChainGrows<Chain8>(Compress256, H256, state[..], blocks, data[..]);
      var m := Schedule(data[..]);
      var v := Rounds(m);
      FeedForward(v);
      assert state[..] == Compress256(old(state[..]), data[..]);
    }

    /** sha256_update. */
    method Update(bytes: seq<Byte>)
      requires Valid()
      modifies this, data, state
      ensures Valid() && Message() == old(Message()) + bytes
    {
      ghost var before := Message();
      var i := 0;
      while i < |bytes|
        invariant 0 <= i <= |bytes|
        invariant Valid() && Message() == before + bytes[..i]
      {
        assert bytes[..i + 1] == bytes[..i] + [bytes[i]];
        Take(bytes[i]);
        i := i + 1;
      }
    }

    /** The body of its loop: buffer one byte, and consume the block once it is full. */
    method Take(byte: Byte)
      requires Valid()
      modifies this, data, state
      ensures Valid() && Message() == old(Message()) + [byte]
    {
      data[datalen] := byte;
      datalen := datalen + 1;
      assert Message() == old(Message()) + [byte];
      if datalen == 64 {
        Transform();
        CountsMore(bitlen, |blocks|, 64);
        bitlen := Low64(bitlen + 512);
        blocks := blocks + data[..];
        datalen := 0;
      }
    }

    /** sha256_final: whatever the chunks were, the hash is that of the whole message. */
    method Final(hash: array<Byte>)
      requires Valid() && hash.Length >= 32 && hash != data
      modifies this, data, state, hash
      ensures hash[..32] == Sha256(old(Message()))
      ensures hash[32..] == old(hash[32..])
    {
      ghost var message := Message();
      CountsMore(bitlen, |blocks|, datalen);
      PadBuffer(message);
      bitlen := Low64(bitlen + 8 * datalen);
      PutLength(data, bitlen);
      Transform();
      Finished(state[..], message, blocks + data[..]);
      PutDigest(state, hash);
    }

    /** Its first part: the bit "1" and the zeros up to the length, which goes in a block of its
        own when it does not fit behind the rest. */
    method PadBuffer(ghost message: seq<Byte>)
      requires Valid() && message == Message()
      modifies this`blocks, data, state
      ensures Consumed(state[..], blocks) && blocks + (data[..56] + Be64(Low64(8 * |message|))) == Pad(message)
    {
      ghost var tail := data[..datalen];
      if datalen < 56 {
        Fill(data, datalen, 56);
        PadsOne(blocks, tail, data[..56]);
      } else {
        Fill(data, datalen, 64);
        PadsTwo(blocks, tail, data[..64]);
        assert data[..64] == data[..];
        Transform();
        blocks := blocks + data[..];
        Clear(data);
      }
    }
  }

  lemma {:induction false} Finished(chain: seq<Word>, m: seq<Byte>, padded: seq<Byte>)
    requires Consumed(chain, padded) && padded == Pad(m)
    ensures Digest(chain) == Sha256(m)
  {
    ChainIs<Chain8>(Compress256, H256, chain, padded);
  }

  /** `chain` is the chaining value after the whole blocks `full`. */
  ghost predicate Consumed(chain: seq<Word>, full: seq<Byte>) {
    |chain| == 8 && Chained<Chain8>(Compress256, H256, chain, full)
  }

  /** `w` is the message schedule of the block `b`; over the one value of `u`. */
  ghost predicate IsSchedule(b: Block, w: seq<Word>) {
    |w| == 64 && forall u {:trigger Words256(u)} :: u == b ==> w == Words256(u)
  }

  /** The first loop of sha256_transform: the block as sixteen words. */
  method Parse(data: Block, m: array<Word>, ghost w: seq<Word>)
    requires m.Length == 64 && IsSchedule(data, w)
    modifies m
    ensures m[..16] == w[..16]
  {
    var i, j := 0, 0;
    while i < 16
      invariant 0 <= i <= 16 && j == 4 * i
      invariant m[..i] == w[..i]
    {
      m[i] := FourBytes(data[j], data[j + 1], data[j + 2], data[j + 3]);
      ParsedStep(data, w, i, j);
      i, j := i + 1, j + 4;
    }
  }

  lemma {:induction false} ParsedStep(b: Block, w: seq<Word>, i: nat, j: nat)
    requires IsSchedule(b, w) && i < 16 && j == 4 * i
    ensures w[i] == FourBytes(b[j], b[j + 1], b[j + 2], b[j + 3])
  {
    assert w == Words256(b);
  }

  /** The second loop: the schedule array m[64]. */
  method Schedule(data: Block) returns (m: array<Word>)
    ensures fresh(m) && m[..] == Words256(data)
  {
    m := new Word[64](i => Word(0));
    ghost var w := Words256(data);
    Parse(data, m, w);
    Expand(data, m, w);
    assert m[..] == m[..64] && w == w[..64];
  }

  method Expand(data: Block, m: array<Word>, ghost w: seq<Word>)
    requires m.Length == 64 && IsSchedule(data, w) && m[..16] == w[..16]
    modifies m
    ensures m[..64] == w[..64]
  {
    var i := 16;
    while i < 64
      invariant 16 <= i <= 64
      invariant m[..i] == w[..i]
    {
      ghost var done := m[..i];
      assert done[i - 2] == w[i - 2] && done[i - 7] == w[i - 7] && done[i - 15] == w[i - 15]
             && done[i - 16] == w[i - 16];
      ScheduleStep(data, w, i);
      m[i] := NextWord256(m[i - 2], m[i - 7], m[i - 15], m[i - 16]);
      i := i + 1;
    }
  }

  lemma {:induction false} ScheduleStep(b: Block, w: seq<Word>, t: nat)
    requires IsSchedule(b, w) && 16 <= t < 64
    ensures w[t] == NextWord256(w[t - 2], w[t - 7], w[t - 15], w[t - 16])
  {
    assert w == Words256(b);
  }

  lemma {:induction false} RoundsStep(chain: Chain8, w: seq<Word>, i: nat, v: Vars8)
    requires i < |w| <= |K256| && AfterRounds(chain, w, i, v)
    ensures AfterRounds(chain, w, i + 1, Round256(v, K256[i], w[i]))
  {
    assert w[..i + 1][..i] == w[..i] && w[..i + 1][i] == w[i];
    assert Rounds256(chain, w[..i]) == v;
  }

  lemma {:induction false} RoundIs(v: Vars8, k: Word, w: Word, t1: Word, t2: Word)
    requires t1 == Add(Add(Add(Add(v.h, BigSigma1(v.e)), Ch(v.e, v.f, v.g)), k), w)
    requires t2 == Add(BigSigma0(v.a), Maj(v.a, v.b, v.c))
    ensures Round256(v, k, w) == Vars8(Add(t1, t2), v.a, v.b, v.c, Add(v.d, t1), v.e, v.f, v.g)
  {
  }

  /** The working variables after `i` rounds. */
  ghost predicate AfterRounds(chain: Chain8, w: seq<Word>, i: nat, v: Vars8)
    requires i <= |w| <= |K256|
  {
    forall u {:trigger Rounds256(chain, u)} :: u == w[..i] ==> v == Rounds256(chain, u)
  }

  lemma {:induction false} SumsOf(h: Chain8, v: Vars8, r: Chain8)
    requires r[0] == Add(h[0], v.a) && r[1] == Add(h[1], v.b) && r[2] == Add(h[2], v.c) && r[3] == Add(h[3], v.d)
    requires r[4] == Add(h[4], v.e) && r[5] == Add(h[5], v.f) && r[6] == Add(h[6], v.g) && r[7] == Add(h[7], v.h)
    ensures r == FeedForward256(h, v)
  {
  }
}
