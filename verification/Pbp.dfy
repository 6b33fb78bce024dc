/** hash_pbp of src/pbp.c. */
module Pbp {
  import opened Common
  import opened Bytes
  import Sha256Stream
  import Fips180

  const TWO32: nat := 0x1_0000_0000
  const BUFFER_SIZE := 0x7c0
  const HEADER_SIZE := 40
  const DATA_PSAR_PTR := 36
  /** The last total of full reads that is below 2^32. */
  const LAST_FULL := 2164802 * 0x7c0

  /** The file position moves with every sceIoRead; a read is short only at the end of the file. */
  function ReadAt(file: seq<Byte>, pos: nat): (chunk: seq<Byte>)
    requires pos <= |file|
    ensures |chunk| == Min(BUFFER_SIZE, |file| - pos)
    ensures chunk == file[pos..pos + |chunk|]
  {
    file[pos..pos + Min(BUFFER_SIZE, |file| - pos)]
  }

  function Min(a: int, b: int): int { if a <= b then a else b }

  /** hash_sz, in 32 bits. */
  function HashSize(file: seq<Byte>): nat
    requires |file| >= HEADER_SIZE
  {
    (Le32(file, DATA_PSAR_PTR) + 0x1C0000) % TWO32
  }

  /** PbpHeader: magic, version, and the offsets of eight parts, data.psar last. */
  datatype Header = Header(magic: seq<Byte>, version: nat, param_sfo: nat, icon0_png: nat, icon1_pmf: nat,
                           pic0_png: nat, pic1_png: nat, snd0_at3: nat, data_psp: nat, data_psar: nat)

  function HeaderBytes(h: Header): (s: seq<Byte>)
    requires |h.magic| == 4
    ensures |s| == 40
  {
    h.magic + Little(h.version, 4) + Little(h.param_sfo, 4) + Little(h.icon0_png, 4) + Little(h.icon1_pmf, 4)
    + Little(h.pic0_png, 4) + Little(h.pic1_png, 4) + Little(h.snd0_at3, 4) + Little(h.data_psp, 4)
    + Little(h.data_psar, 4)
  }

  /** So the size is read from the last field of such a header. */
  lemma {:induction false} SizeOfHeader(h: Header, rest: seq<Byte>)
    requires |h.magic| == 4 && h.data_psar < TWO32
    ensures |HeaderBytes(h)| == HEADER_SIZE
    ensures HashSize(HeaderBytes(h) + rest) == (h.data_psar + 0x1C0000) % 0x1_0000_0000
  {
    var front := h.magic + Little(h.version, 4) + Little(h.param_sfo, 4) + Little(h.icon0_png, 4)
                 + Little(h.icon1_pmf, 4) + Little(h.pic0_png, 4) + Little(h.pic1_png, 4) + Little(h.snd0_at3, 4)
                 + Little(h.data_psp, 4);
    var last := Little(h.data_psar, 4);
    HasFirst(last, rest);
    HasMore(front, last + rest, 0, last);
    assert HeaderBytes(h) + rest == front + (last + rest);
    Read32(HeaderBytes(h) + rest, 36, h.data_psar);
  }

  /** Without overflow the size is the sum itself, and past the first read. */
  lemma {:induction false} NoOverflow(file: seq<Byte>)
    requires |file| >= HEADER_SIZE && Le32(file, DATA_PSAR_PTR) + 0x1C0000 < TWO32
    ensures HashSize(file) == Le32(file, DATA_PSAR_PTR) + 0x1C0000
    ensures Min(BUFFER_SIZE, |file|) <= HashSize(file)
  {
  }

  /** Hashes a prefix of the file, of `hashed` bytes: the first hash_sz bytes or the whole file if it
      is shorter, unless the 32-bit total wraps around on a file of 2^32 bytes or more. A header
      whose sum overflows so far that hash_sz is less than the first read is not defined in C. */
  method HashPbp(file: seq<Byte>, hash: array<Byte>) returns (ret: int, ghost hashed: nat)
    requires hash.Length >= 32
    requires |file| >= HEADER_SIZE ==> Min(BUFFER_SIZE, |file|) <= HashSize(file)
    modifies hash
    ensures |file| < HEADER_SIZE ==> ret == |file| && hash[..] == old(hash[..])
    ensures |file| >= HEADER_SIZE ==> ret == 1 && hashed <= |file| && hash[..32] == Fips180.Sha256(file[..hashed])
    ensures |file| >= HEADER_SIZE ==> Ended(|file|, HashSize(file), hashed)
  {
    hashed := 0;
    var wbuf := ReadAt(file, 0);
    var read_sz := |wbuf|;
    if read_sz < HEADER_SIZE { return read_sz, 0; }
    var hash_sz := (Le32(wbuf, DATA_PSAR_PTR) + 0x1C0000) % TWO32;
    assert hash_sz == HashSize(file);
    var ctx := new Sha256Stream.Context();
    ctx.Update(wbuf);
    hashed := HashRest(file, ctx, hash_sz, read_sz);
    ctx.Final(hash);
    return 1, hashed;
  }

  /** Its do-while loop, after the first read. */
  method HashRest(file: seq<Byte>, ctx: Sha256Stream.Context, hash_sz: nat, first: nat) returns (ghost hashed: nat)
    requires first == Min(BUFFER_SIZE, |file|) <= hash_sz < TWO32
    requires ctx.Valid() && ctx.Message() == file[..first]
    modifies ctx, ctx.data, ctx.state
    ensures Ended(|file|, hash_sz, hashed)
    ensures ctx.Valid() && ctx.Message() == file[..hashed]
  {
    var total_hashed, pos, again := first, first, true;
    hashed := first;
    ghost var full := 1;
    while again
      invariant 0 <= total_hashed && hashed <= |file|
      invariant ctx.Valid() && ctx.Message() == file[..hashed]
      invariant again ==> pos == hashed && Going(|file|, hash_sz, total_hashed, hashed, full)
      invariant !again ==> Ended(|file|, hash_sz, hashed)
      decreases |file| - hashed, again
    {
      var wbuf := ReadAt(file, pos);
      var read_sz := |wbuf|;
      pos := pos + read_sz;
      if Add32(total_hashed, read_sz) > hash_sz {
        read_sz := hash_sz - total_hashed;
      }
      OneRead(|file|, hash_sz, total_hashed, hashed, full, |wbuf|, read_sz);
      Extend(file, hashed, wbuf, read_sz);
      ctx.Update(wbuf[..read_sz]);
      total_hashed := Add32(total_hashed, read_sz);
      hashed, full := hashed + read_sz, full + 1;
      if read_sz < BUFFER_SIZE {
        total_hashed := hash_sz;
      }
      again := total_hashed < hash_sz;
    }
  }

  /** The sum of two sizes in 32 bits. */
  function Add32(a: nat, b: nat): int {
    if a + b < TWO32 then a + b else a + b - TWO32
  }

  /** Between two reads, of which `full` were full: the total is what was hashed, until it wraps
      around. */
  ghost predicate Going(size: nat, hash_sz: nat, total: nat, hashed: nat, full: nat) {
    && total <= hash_sz < TWO32
    && (total == hash_sz ==> hashed <= BUFFER_SIZE)
    && hashed <= size
    && (hashed == full * 0x7c0 || hashed == size < BUFFER_SIZE)
    && (if hashed < TWO32 then total == hashed else hash_sz > LAST_FULL)
  }

  /** What the loop leaves: exactly the prefix that hash_sz asks for, if and only if no total wraps
      around, which takes a size above the last total of full reads and a file to match. */
  ghost predicate Ended(size: nat, hash_sz: nat, hashed: nat) {
    && hashed <= size
    && (hashed == Min(hash_sz, size) <==> hash_sz <= LAST_FULL || size < TWO32)
  }

  lemma {:induction false} Extend(file: seq<Byte>, hashed: nat, wbuf: seq<Byte>, used: nat)
    requires hashed + |wbuf| <= |file| && wbuf == file[hashed..hashed + |wbuf|] && used <= |wbuf|
    ensures file[..hashed] + wbuf[..used] == file[..hashed + used]
  {
  }

  /** One pass of the loop, which uses the first `used` of `got` bytes. */
  lemma {:induction false} OneRead(size: nat, hash_sz: nat, total: nat, hashed: nat, full: nat, got: nat, used: int)
    requires Going(size, hash_sz, total, hashed, full)
    requires got == Min(BUFFER_SIZE, size - hashed)
    requires used == if Add32(total, got) > hash_sz then hash_sz - total else got
    ensures 0 <= used <= got && 0 <= Add32(total, used)
    ensures used < BUFFER_SIZE || Add32(total, used) >= hash_sz ==> Ended(size, hash_sz, hashed + used)
    ensures used == BUFFER_SIZE && Add32(total, used) < hash_sz ==>
            Going(size, hash_sz, Add32(total, used), hashed + used, full + 1)
  {
  }
}
