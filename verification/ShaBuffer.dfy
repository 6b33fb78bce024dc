/** What sha1_final and sha256_final do alike with the 64-byte buffer and with the hash they write. */
module ShaBuffer {
  import opened Common
  import opened Fips180

  /** The 64-bit counter holds the bits of so many bytes. */
  ghost predicate Counts(bitlen: nat, bytes: nat) {
    forall bits: nat {:trigger Low64(bits)} :: bits == 8 * bytes ==> bitlen == Low64(bits)
  }

  lemma {:induction false} CountsMore(bitlen: nat, bytes: nat, more: nat)
    requires Counts(bitlen, bytes)
    ensures Counts(Low64(bitlen + 8 * more), bytes + more)
  {
    Low64Sum(8 * bytes, 8 * more, 8 * (bytes + more));
  }

  /** The byte 0x80 and then zeros up to `end`. */
  method Fill(data: array<Byte>, start: nat, end: nat)
    requires start < end <= data.Length
    modifies data
    ensures data[..end] == old(data[..start]) + [0x80] + Zeros(end - start - 1)
    ensures data[end..] == old(data[end..])
  {
    data[start] := 0x80;
    var i := start + 1;
    while i < end
      invariant start < i <= end
      invariant data[..i] == old(data[..start]) + [0x80] + Zeros(i - start - 1)
      invariant data[end..] == old(data[end..])
    {
      data[i] := 0;
      i := i + 1;
    }
  }

  /** memset(data, 0, 56). */
  method Clear(data: array<Byte>)
    requires data.Length == 64
    modifies data
    ensures data[..56] == Zeros(56)
  {
    forall i | 0 <= i < 56 { data[i] := 0; }
  }

  /** The bit count in the last eight bytes, the most significant first. */
  method PutLength(data: array<Byte>, bitlen: nat)
    requires data.Length == 64
    modifies data
    ensures data[..] == old(data[..56]) + Be64(bitlen)
  {
    data[63] := bitlen % 256;
    data[62] := Shift(bitlen, 1) % 256;
    data[61] := Shift(bitlen, 2) % 256;
    data[60] := Shift(bitlen, 3) % 256;
    data[59] := Shift(bitlen, 4) % 256;
    data[58] := Shift(bitlen, 5) % 256;
    data[57] := Shift(bitlen, 6) % 256;
    data[56] := Shift(bitlen, 7) % 256;
    LengthBytes(bitlen, data[56..]);
    assert data[..56] == old(data[..56]);
    assert data[..] == data[..56] + data[56..];
  }

  lemma {:induction false} LengthBytes(v: nat, b: seq<Byte>)
    requires |b| == 8
    requires b[7] == v % 256 && b[6] == Shift(v, 1) % 256 && b[5] == Shift(v, 2) % 256 && b[4] == Shift(v, 3) % 256
    requires b[3] == Shift(v, 4) % 256 && b[2] == Shift(v, 5) % 256 && b[1] == Shift(v, 6) % 256
             && b[0] == Shift(v, 7) % 256
    ensures b == Be64(v)
  {
    forall i | 0 <= i < 8 ensures b[i] == Shift(v, 7 - i) % 256 {
    }
  }

  /** The loop over i < 4 that writes byte i of every word of the state. */
  method PutDigest(state: array<Word>, hash: array<Byte>)
    requires 4 * state.Length <= hash.Length
    modifies hash
    ensures hash[..4 * state.Length] == Digest(state[..])
    ensures hash[4 * state.Length..] == old(hash[4 * state.Length..])
  {
    var i := 0;
    while i < 4
      invariant 0 <= i <= 4
      invariant forall k {:trigger hash[k]} :: 0 <= k < 4 * state.Length && k % 4 < i ==>
                hash[k] == ByteOf(state[k / 4], k % 4)
      invariant hash[4 * state.Length..] == old(hash[4 * state.Length..])
    {
      var j := 0;
      while j < state.Length
        invariant 0 <= j <= state.Length
        invariant forall k {:trigger hash[k]} ::
                    0 <= k < 4 * state.Length && (k % 4 < i || (k % 4 == i && k / 4 < j)) ==>
                    hash[k] == ByteOf(state[k / 4], k % 4)
        invariant hash[4 * state.Length..] == old(hash[4 * state.Length..])
      {
        hash[4 * j + i] := ByteOf(state[j], i);
        j := j + 1;
      }
      i := i + 1;
    }
  }
}
