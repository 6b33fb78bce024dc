/** Vocabulary shared by every part of the model. */
module Common {

  /** A C `uint8_t`. */
  type Byte = x: int | 0 <= x < 256

  datatype Option<+T> = None | Some(value: T)

  /** The C `int` that a 32-bit error constant becomes when it is returned. */
  function Signed(code: int): int { if code < 0x8000_0000 then code else code - 0x1_0000_0000 }

  const ERR_INVALID_TYPE := Signed(0xF0010005)
  const ERR_IDENTICAL := Signed(0xF0020000)
  const ERR_SUBFOLDER := Signed(0xF0020001)
  const ERR_INVALID_MAGIC := Signed(0xF0010004)
  const ERR_NOT_FOUND := Signed(0xF0010002)

  /** They are the numbers of the header in two's complement, and so negative and all different. */
  lemma {:induction false} ErrorsAreNegative()
    ensures ERR_INVALID_TYPE == 0xF0010005 - 0x1_0000_0000 < 0
    ensures ERR_IDENTICAL == 0xF0020000 - 0x1_0000_0000 < 0
    ensures ERR_SUBFOLDER == 0xF0020001 - 0x1_0000_0000 < 0
    ensures ERR_INVALID_MAGIC == 0xF0010004 - 0x1_0000_0000 < 0
    ensures ERR_NOT_FOUND == 0xF0010002 - 0x1_0000_0000 < 0
  {
  }

  /** The size of a licence. */
  const RIF_SIZE := 512

  /** The little-endian 32-bit number at offset `at`. */
  function Le32(b: seq<Byte>, at: nat): (v: nat)
    requires at + 4 <= |b|
    ensures v < 0x1_0000_0000
  {
    b[at] as int + 0x100 * (b[at + 1] as int) + 0x1_0000 * (b[at + 2] as int) + 0x100_0000 * (b[at + 3] as int)
  }

  /** A C string without its terminator. */
  predicate NoZero(s: seq<Byte>) { forall k :: 0 <= k < |s| ==> s[k] != 0 }

  /** The bytes from `at` up to the first zero, or to the end of the buffer. */
  function Text(b: seq<Byte>, at: nat): (s: seq<Byte>)
    ensures NoZero(s) && (at <= |b| ==> at + |s| <= |b| && s == b[at..at + |s|])
    ensures at + |s| < |b| ==> b[at + |s|] == 0
    decreases |b| - at
  {
    if at >= |b| || b[at] == 0 then [] else [b[at]] + Text(b, at + 1)
  }
}
