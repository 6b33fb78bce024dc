/** utf8_to_utf16 of src/utils.c against UTF-8 (section 3 of RFC 3629) and UTF-16. */
module Utf {
  import opened Common

  /** A Unicode scalar value that is not the terminator. */
  type Scalar = c: bv32 | 0 < c <= 0x10FFFF && !(0xD800 <= c <= 0xDFFF) witness 1

  predicate InBmp(c: Scalar) { c < 0x10000 }

  // ----- The two encodings -----

  function Byte8(x: bv32): bv8 { (x & 0xFF) as bv8 }
  function Unit(x: bv32): bv16 { (x & 0xFFFF) as bv16 }

  function Utf8(c: Scalar): (s: seq<bv8>) {
    if c < 0x80 then [Byte8(c)]
    else if c < 0x800 then [Byte8(0xC0 | (c >> 6)), Byte8(0x80 | (c & 0x3F))]
    else if c < 0x10000 then [Byte8(0xE0 | (c >> 12)), Byte8(0x80 | ((c >> 6) & 0x3F)), Byte8(0x80 | (c & 0x3F))]
    else [Byte8(0xF0 | (c >> 18)), Byte8(0x80 | ((c >> 12) & 0x3F)), Byte8(0x80 | ((c >> 6) & 0x3F)),
          Byte8(0x80 | (c & 0x3F))]
  }

  function Utf16(c: Scalar): (s: seq<bv16>)
    ensures |s| == if InBmp(c) then 1 else 2
  {
    if InBmp(c) then [Unit(c)]
    else [Unit(0xD800 | ((c - 0x10000) >> 10)), Unit(0xDC00 | ((c - 0x10000) & 0x3FF))]
  }

  function Utf8All(s: seq<Scalar>): seq<bv8> {
    if s == [] then [] else Utf8(s[0]) + Utf8All(s[1..])
  }

  function Utf16All(s: seq<Scalar>): seq<bv16> {
    if s == [] then [] else Utf16(s[0]) + Utf16All(s[1..])
  }

  // ----- The loop -----

  predicate Lead3(b: bv8) { b & 0xE0 == 0xE0 }
  predicate Lead2(b: bv8) { b & 0xC0 == 0xC0 }

  function Unit3(a: bv8, b: bv8, c: bv8): bv16 {
    (((a & 0x0F) as bv16) << 12) | (((b & 0x3F) as bv16) << 6) | ((c & 0x3F) as bv16)
  }

  function Unit2(a: bv8, b: bv8): bv16 {
    (((a & 0x1F) as bv16) << 6) | ((b & 0x3F) as bv16)
  }

  /** How far one pass of the loop advances. */
  function Stride(b: bv8): nat { if Lead3(b) then 3 else if Lead2(b) then 2 else 1 }

  /** The units written for the bytes `src`, which end in the terminator; None if a byte behind it
      would be read. */
  function Decoded(src: seq<bv8>): Option<seq<bv16>> {
    if src == [] then None
    else if src[0] == 0 then Some([])
    else if Stride(src[0]) >= |src| then None
    else
      var rest := Decoded(src[Stride(src[0])..]);
      if rest.None? then None
      else Some([UnitAt(src)] + rest.value)
  }

  function UnitAt(src: seq<bv8>): bv16
    requires src != [] && Stride(src[0]) < |src|
  {
    if Lead3(src[0]) then Unit3(src[0], src[1], src[2])
    else if Lead2(src[0]) then Unit2(src[0], src[1])
    else src[0] as bv16
  }

  method Utf8ToUtf16(src: seq<bv8>, dst: array<bv16>)
    requires Decoded(src).Some? && |Decoded(src).value| < dst.Length
    modifies dst
    ensures var n := |Decoded(src).value|;
      dst[..n + 1] == Decoded(src).value + [0] && dst[n + 1..] == old(dst[n + 1..])
  {
    var i, d := 0, 0;
    ghost var units := Decoded(src).value;
    assert src[0..] == src;
    while src[i] != 0
      invariant 0 <= i < |src| && 0 <= d <= |units| < dst.Length
      invariant Left(src, i, units, d)
      invariant dst[..d] == units[..d] && dst[|units| + 1..] == old(dst[|units| + 1..])
      decreases |src| - i
    {
      OnePass(src, i, units, d);
      if Lead3(src[i]) {
        dst[d] := Unit3(src[i], src[i + 1], src[i + 2]);
        d, i := d + 1, i + 3;
      } else if Lead2(src[i]) {
        dst[d] := Unit2(src[i], src[i + 1]);
        d, i := d + 1, i + 2;
      } else {
        dst[d] := src[i] as bv16;
        d, i := d + 1, i + 1;
      }
    }
    AllWritten(src, i, units, d);
    dst[d] := 0;
  }

  /** What is left to decode from `i` on are the units from `d` on; over the one value of `u`, so that
      the loop does not unfold it. */
  ghost predicate Left(src: seq<bv8>, i: nat, units: seq<bv16>, d: nat)
    requires i <= |src| && d <= |units|
  {
    forall u {:trigger Decoded(u)} :: u == src[i..] ==> Decoded(u) == Some(units[d..])
  }

  lemma {:induction false} AllWritten(src: seq<bv8>, i: nat, units: seq<bv16>, d: nat)
    requires i < |src| && src[i] == 0 && d <= |units| && Left(src, i, units, d)
    ensures d == |units|
  {
    assert Decoded(src[i..]) == Some(units[d..]);
  }

  lemma {:induction false} OnePass(src: seq<bv8>, i: nat, units: seq<bv16>, d: nat)
    requires i < |src| && d <= |units| && Left(src, i, units, d) && src[i] != 0
    ensures d < |units| && i + Stride(src[i]) < |src|
    ensures units[d] == (if Lead3(src[i]) then Unit3(src[i], src[i + 1], src[i + 2])
                         else if Lead2(src[i]) then Unit2(src[i], src[i + 1]) else src[i] as bv16)
    ensures Left(src, i + Stride(src[i]), units, d + 1)
  {
    var left := src[i..];
    assert Decoded(left) == Some(units[d..]);
    assert left[Stride(src[i])..] == src[i + Stride(src[i])..];
    assert units[d..] == [UnitAt(left)] + Decoded(src[i + Stride(src[i])..]).value;
    assert units[d..][0] == units[d] && units[d..][1..] == units[d + 1..];
  }

  // ----- One scalar value -----

  lemma {:induction false} OneByte(c: bv32)
    requires 0 < c < 0x80
    ensures Byte8(c) != 0 && !Lead3(Byte8(c)) && !Lead2(Byte8(c)) && Byte8(c) as bv16 == Unit(c)
  {
  }

  lemma {:induction false} TwoBytes(c: bv32)
    requires 0x80 <= c < 0x800
    ensures var a := Byte8(0xC0 | (c >> 6));
      && a != 0 && !Lead3(a) && Lead2(a)
      && Unit2(a, Byte8(0x80 | (c & 0x3F))) == Unit(c)
  {
  }

  lemma {:induction false} ThreeBytes(c: bv32)
    requires 0x800 <= c < 0x10000
    ensures var a := Byte8(0xE0 | (c >> 12));
      && a != 0 && Lead3(a)
      && Unit3(a, Byte8(0x80 | ((c >> 6) & 0x3F)), Byte8(0x80 | (c & 0x3F))) == Unit(c)
  {
  }

  /** A lead byte of four is taken for one of three, and the last byte for a unit of its own. */
  lemma {:induction false} FourBytes(c: bv32)
    requires 0x10000 <= c <= 0x10FFFF
    ensures var a, last := Byte8(0xF0 | (c >> 18)), Byte8(0x80 | (c & 0x3F));
      && a != 0 && Lead3(a) && last != 0 && !Lead3(last) && !Lead2(last)
      && Unit3(a, Byte8(0x80 | ((c >> 12) & 0x3F)), Byte8(0x80 | ((c >> 6) & 0x3F))) < 0x5000
      && Unit(0xD800 | ((c - 0x10000) >> 10)) >= 0xD800
  {
  }

  /** What the loop writes for one scalar value. */
  function Written(c: Scalar): (u: seq<bv16>) {
    if InBmp(c) then [Unit(c)]
    else
      var b := Utf8(c);
      [Unit3(b[0], b[1], b[2]), b[3] as bv16]
  }

  lemma {:induction false} WrittenIsUtf16(c: Scalar)
    ensures |Written(c)| == |Utf16(c)|
    ensures Written(c) == Utf16(c) <==> InBmp(c)
  {
    if !InBmp(c) {
      FourBytes(c);
      assert Written(c)[0] != Utf16(c)[0];
    }
  }

  lemma {:induction false} OneOfFour(c: Scalar, rest: seq<bv8>)
    requires !InBmp(c) && Decoded(rest).Some?
    ensures Decoded(Utf8(c) + rest) == Some(Written(c) + Decoded(rest).value)
  {
    FourBytes(c);
    var b := Utf8(c);
    AsThreeAndOne(b[0], b[1], b[2], b[3], rest);
    assert b == [b[0], b[1], b[2], b[3]];
  }

  lemma {:induction false} AsThreeAndOne(a: bv8, b: bv8, c: bv8, last: bv8, rest: seq<bv8>)
    requires a != 0 && Lead3(a) && last != 0 && !Lead3(last) && !Lead2(last) && Decoded(rest).Some?
    ensures Decoded([a, b, c, last] + rest) == Some([Unit3(a, b, c), last as bv16] + Decoded(rest).value)
  {
    var src, tail := [a, b, c, last] + rest, [last] + rest;
    LastOfFour(last, rest);
    assert src[3..] == tail;
    assert [Unit3(a, b, c), last as bv16] + Decoded(rest).value
           == [UnitAt(src)] + ([last as bv16] + Decoded(rest).value);
  }

  lemma {:induction false} LastOfFour(last: bv8, rest: seq<bv8>)
    requires last != 0 && !Lead3(last) && !Lead2(last) && Decoded(rest).Some?
    ensures Decoded([last] + rest) == Some([last as bv16] + Decoded(rest).value)
  {
    assert ([last] + rest)[1..] == rest;
  }

  lemma {:induction false} OneScalar(c: Scalar, rest: seq<bv8>)
    requires Decoded(rest).Some?
    ensures Decoded(Utf8(c) + rest) == Some(Written(c) + Decoded(rest).value)
  {
    var src := Utf8(c) + rest;
    if c < 0x80 {
      OneByte(c);
      assert src[1..] == rest;
    } else if c < 0x800 {
      TwoBytes(c);
      assert src[2..] == rest;
    } else if c < 0x10000 {
      ThreeBytes(c);
      assert src[3..] == rest;
    } else {
      OneOfFour(c, rest);
    }
  }

  // ----- All texts -----

  /** For every text, the loop ends at the terminator without reading past it and writes as many
      units as UTF-16 has; they are the UTF-16 text exactly if all of it is in the Basic
      Multilingual Plane. */
  lemma {:induction false} DecodesBmp(s: seq<Scalar>)
    ensures Decoded(Utf8All(s) + [0]).Some?
    ensures var units := Decoded(Utf8All(s) + [0]).value;
      && |units| == |Utf16All(s)|
      && (units == Utf16All(s) <==> forall k :: 0 <= k < |s| ==> InBmp(s[k]))
  {
    if s == [] {
      assert Utf8All(s) + [0] == [0];
    } else {
      DecodesBmp(s[1..]);
      var rest := Decoded(Utf8All(s[1..]) + [0]).value;
      OneScalar(s[0], Utf8All(s[1..]) + [0]);
      assert Utf8All(s) + [0] == Utf8(s[0]) + (Utf8All(s[1..]) + [0]);
      WrittenIsUtf16(s[0]);
      SameParts(Written(s[0]), rest, Utf16(s[0]), Utf16All(s[1..]));
      assert forall k :: 0 < k < |s| ==> s[k] == s[1..][k - 1];
      assert forall k :: 0 <= k < |s| - 1 ==> s[1..][k] == s[k + 1];
    }
  }

  lemma {:induction false} SameParts(a: seq<bv16>, b: seq<bv16>, c: seq<bv16>, d: seq<bv16>)
    requires |a| == |c|
    ensures a + b == c + d <==> a == c && b == d
  {
    assert (a + b)[..|a|] == a && (a + b)[|a|..] == b;
    assert (c + d)[..|c|] == c && (c + d)[|c|..] == d;
  }

  /** In particular one unit for every code point of such a text. */
  lemma {:induction false} OneUnitEach(s: seq<Scalar>)
    requires forall k :: 0 <= k < |s| ==> InBmp(s[k])
    ensures Decoded(Utf8All(s) + [0]).Some?
    ensures var units := Decoded(Utf8All(s) + [0]).value;
      |units| == |s| && forall k :: 0 <= k < |s| ==> units[k] == Unit(s[k])
  {
    DecodesBmp(s);
    UnitsOfBmp(s);
  }

  lemma {:induction false} UnitsOfBmp(s: seq<Scalar>)
    requires forall k :: 0 <= k < |s| ==> InBmp(s[k])
    ensures |Utf16All(s)| == |s| && forall k :: 0 <= k < |s| ==> Utf16All(s)[k] == Unit(s[k])
  {
    if s != [] {
      UnitsOfBmp(s[1..]);
      assert forall k :: 0 < k < |s| ==> s[k] == s[1..][k - 1];
    }
  }
}
