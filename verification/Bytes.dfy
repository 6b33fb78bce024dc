/** Packed structures: what bytes a buffer holds at an offset. */
module Bytes {
  import opened Common

  /** `n` bytes of a number, the least significant first. */
  function Little(v: nat, n: nat): (s: seq<Byte>)
    ensures |s| == n
  {
    if n == 0 then [] else [v % 256] + Little(v / 256, n - 1)
  }

  /** The buffer holds these bytes at `at`. */
  predicate Slice(b: seq<Byte>, at: nat, s: seq<Byte>) { at + |s| <= |b| && b[at..at + |s|] == s }

  /** The same, over the one value of `u`, so that few lemmas take it apart. */
  ghost predicate Has(b: seq<Byte>, at: nat, s: seq<Byte>) {
    forall u {:trigger Slice(b, at, u)} :: u == s ==> Slice(b, at, u)
  }

  lemma {:induction false} HasPart(b: seq<Byte>, at: nat, s: seq<Byte>, i: nat, part: seq<Byte>)
    requires Has(b, at, s) && Has(s, i, part)
    ensures Has(b, at + i, part) && at + i + |part| <= at + |s| <= |b|
  {
    assert Slice(b, at, s) && Slice(s, i, part);
    forall k | 0 <= k < |part| ensures b[at + i + k] == part[k] {
      assert part[k] == s[i..i + |part|][k] && s[i + k] == b[at..at + |s|][i + k];
    }
  }

  lemma {:induction false} HasFirst(first: seq<Byte>, more: seq<Byte>)
    ensures Has(first + more, 0, first)
  {
  }

  lemma {:induction false} HasMore(first: seq<Byte>, more: seq<Byte>, at: nat, s: seq<Byte>)
    requires Has(more, at, s)
    ensures Has(first + more, |first| + at, s)
  {
    assert Slice(more, at, s);
  }

  lemma {:induction false} HasLength(b: seq<Byte>, at: nat, s: seq<Byte>)
    requires Has(b, at, s)
    ensures at + |s| <= |b|
  {
    assert Slice(b, at, s);
  }

  lemma {:induction false} Read32(b: seq<Byte>, at: nat, v: nat)
    requires Has(b, at, Little(v, 4)) && v < 0x1_0000_0000
    ensures at + 4 <= |b| && Le32(b, at) == v
  {
    assert Slice(b, at, Little(v, 4));
    var s := b[at..at + 4];
    assert b[at] == s[0] && b[at + 1] == s[1] && b[at + 2] == s[2] && b[at + 3] == s[3];
    assert s[1..] == Little(v / 256, 3) && s[2..] == Little(v / 256 / 256, 2);
    assert s[3..] == Little(v / 256 / 256 / 256, 1);
  }

  lemma {:induction false} FourParts(b: seq<Byte>, h: seq<Byte>, e: seq<Byte>, k: seq<Byte>, r: seq<Byte>)
    requires b == h + e + k + r
    ensures Has(b, 0, h) && Has(b, |h|, e) && Has(b, |h| + |e|, k) && Has(b, |h| + |e| + |k|, r)
  {
    assert b == h + (e + k + r) && b == (h + e) + (k + r) && b == (h + e + k) + r;
    assert b[|h|..|h| + |e|] == e && b[|h| + |e|..|h| + |e| + |k|] == k;
  }
}
