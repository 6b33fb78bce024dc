/** The key/value format of src/sfo.c: reads and in-place writes through three offset tables. */
module Sfo {
  import opened Common

  const SFO_MAGIC := 0x46535000
  const INVALID_MAGIC := ERR_INVALID_MAGIC
  const NOT_FOUND := ERR_NOT_FOUND

  const HEADER_SIZE := 20

  // ----- The layout -----

  function Le16(b: seq<Byte>, at: nat): nat
    requires at + 2 <= |b|
  {
    b[at] as int + 0x100 * (b[at + 1] as int)
  }

  predicate HasHeader(b: seq<Byte>) { |b| >= HEADER_SIZE }

  function Magic(b: seq<Byte>): nat requires HasHeader(b) { Le32(b, 0) }
  function KeyOfs(b: seq<Byte>): nat requires HasHeader(b) { Le32(b, 8) }
  function ValOfs(b: seq<Byte>): nat requires HasHeader(b) { Le32(b, 12) }
  function Count(b: seq<Byte>): nat requires HasHeader(b) { Le32(b, 16) }

  predicate HasTable(b: seq<Byte>) { HasHeader(b) && HEADER_SIZE + 16 * Count(b) <= |b| }

  function NameOfs(b: seq<Byte>, i: nat): nat requires HasTable(b) && i < Count(b) { Le16(b, 20 + 16 * i) }
  function TotalSize(b: seq<Byte>, i: nat): nat requires HasTable(b) && i < Count(b) { Le32(b, 20 + 16 * i + 8) }
  function DataOfs(b: seq<Byte>, i: nat): nat requires HasTable(b) && i < Count(b) { Le32(b, 20 + 16 * i + 12) }

  function KeyAt(b: seq<Byte>, i: nat): nat requires HasTable(b) && i < Count(b) { KeyOfs(b) + NameOfs(b, i) }
  function DataAt(b: seq<Byte>, i: nat): nat requires HasTable(b) && i < Count(b) { ValOfs(b) + DataOfs(b, i) }

  predicate Terminated(b: seq<Byte>, at: nat) { at + |Text(b, at)| < |b| }

  /** All that a search, or where a value lies, depends on. */
  datatype Layout = Layout(count: nat, keyAt: seq<nat>, keys: seq<seq<Byte>>, data: seq<nat>, sizes: seq<nat>)

  function LayoutOf(b: seq<Byte>): (l: Layout)
    requires HasTable(b)
    ensures l.count == |l.keyAt| == |l.keys| == |l.data| == |l.sizes|
  {
    var n := Count(b);
    Layout(
      n,
      seq(n, i requires 0 <= i < n => KeyAt(b, i)),
      seq(n, i requires 0 <= i < n => Text(b, KeyAt(b, i))),
      seq(n, i requires 0 <= i < n => DataAt(b, i)),
      seq(n, i requires 0 <= i < n => TotalSize(b, i)))
  }

  /** What every reader needs: the tables and the keys lie in the buffer. */
  ghost predicate Readable(b: seq<Byte>) {
    HasTable(b) && forall i :: 0 <= i < Count(b) ==> Terminated(b, KeyAt(b, i))
  }

  /** The first entry whose key is `name`; |keys| if there is none. */
  function Find(keys: seq<seq<Byte>>, name: seq<Byte>): (i: nat)
    ensures i <= |keys| && (i < |keys| ==> keys[i] == name)
    ensures forall j :: 0 <= j < i ==> keys[j] != name
  {
    if keys == [] || keys[0] == name then 0 else 1 + Find(keys[1..], name)
  }

  // ----- What the four functions compute -----

  function Bytes32(v: nat): (s: seq<Byte>)
    ensures |s| == 4
  {
    [v % 0x100, v / 0x100 % 0x100, v / 0x100 / 0x100 % 0x100, v / 0x100 / 0x100 / 0x100 % 0x100]
  }

  lemma {:induction false} Bytes32Read(v: nat, b: seq<Byte>, at: nat)
    requires v < 0x1_0000_0000 && at + 4 <= |b| && b[at..at + 4] == Bytes32(v)
    ensures Le32(b, at) == v
  {
    assert b[at] == b[at..at + 4][0] && b[at + 1] == b[at..at + 4][1] && b[at + 2] == b[at..at + 4][2]
           && b[at + 3] == b[at..at + 4][3];
  }

  function Splice(b: seq<Byte>, at: nat, bytes: seq<Byte>): (b': seq<Byte>)
    requires at + |bytes| <= |b|
    ensures |b'| == |b|
    ensures forall k :: 0 <= k < |b| ==> b'[k] == if at <= k < at + |bytes| then bytes[k - at] else b[k]
  {
    b[..at] + bytes + b[at + |bytes|..]
  }

  /** The data of the entry of `name`, if there is one, can be overwritten by so many bytes without
      leaving the buffer. */
  predicate Writable(l: Layout, size: nat, name: seq<Byte>, n: nat)
    requires |l.keys| == |l.data|
  {
    var i := Find(l.keys, name);
    i < |l.keys| ==> l.data[i] + n <= size
  }

  function Stored(b: seq<Byte>, name: seq<Byte>, bytes: seq<Byte>): (seq<Byte>, int)
    requires HasHeader(b)
    requires Magic(b) == SFO_MAGIC ==> HasTable(b) && Writable(LayoutOf(b), |b|, name, |bytes|)
  {
    if Magic(b) != SFO_MAGIC then (b, INVALID_MAGIC)
    else
      var l := LayoutOf(b);
      var i := Find(l.keys, name);
      if i == l.count then (b, NOT_FOUND) else (Splice(b, l.data[i], bytes), 0)
  }

  datatype Result<T> = Ok(value: T) | Error(code: int)

  function Value(b: seq<Byte>, name: seq<Byte>): Result<nat>
    requires HasHeader(b)
    requires Magic(b) == SFO_MAGIC ==> HasTable(b) && Writable(LayoutOf(b), |b|, name, 4)
  {
    if Magic(b) != SFO_MAGIC then Error(INVALID_MAGIC)
    else
      var l := LayoutOf(b);
      var i := Find(l.keys, name);
      if i == l.count then Error(NOT_FOUND) else Ok(Le32(b, l.data[i]))
  }

  function String(b: seq<Byte>, name: seq<Byte>): Result<seq<Byte>>
    requires HasHeader(b)
    requires Magic(b) == SFO_MAGIC ==> HasTable(b)
  {
    if Magic(b) != SFO_MAGIC then Error(INVALID_MAGIC)
    else
      var l := LayoutOf(b);
      var i := Find(l.keys, name);
      if i == l.count then Error(NOT_FOUND) else Ok(Text(b, l.data[i]))
  }

  /** `length` bytes from the text of `name`, or all of it, lie in the buffer. */
  predicate Copyable(b: seq<Byte>, name: seq<Byte>, length: nat)
    requires HasTable(b)
  {
    var l := LayoutOf(b);
    var i := Find(l.keys, name);
    i < l.count ==> Terminated(b, l.data[i]) || l.data[i] + length <= |b|
  }

  function Code<T>(r: Result<T>): int { if r.Ok? then 0 else r.code }

  /** `length` bytes that hold as much of `s` as leaves room for a zero, and zeros behind it. */
  function Truncated(s: seq<Byte>, length: nat): (out: seq<Byte>)
    requires length > 0
    ensures |out| == length && out[length - 1] == 0
  {
    if |s| < length then s + seq(length - |s|, i => 0) else s[..length - 1] + [0]
  }

  lemma {:induction false} TextIs(b: seq<Byte>, at: nat, s: seq<Byte>)
    requires at + |s| < |b| && NoZero(s) && b[at..at + |s|] == s && b[at + |s|] == 0
    ensures Text(b, at) == s
    decreases |s|
  {
    if s != [] {
      assert b[at] == s[0];
      assert b[at + 1..at + |s|] == s[1..];
      TextIs(b, at + 1, s[1..]);
    }
  }

  /** What getSfoString writes is a C string: all of the text, or all but what does not fit. */
  lemma {:induction false} TruncatedText(s: seq<Byte>, length: nat)
    requires length > 0 && NoZero(s)
    ensures Text(Truncated(s, length), 0) == if |s| < length then s else s[..length - 1]
  {
    TextIs(Truncated(s, length), 0, if |s| < length then s else s[..length - 1]);
  }

  // ----- The four functions -----

  /** strcmp with the key of entry `i`. */
  predicate KeyMatches(b: seq<Byte>, i: nat, name: seq<Byte>)
    requires HasTable(b) && i < Count(b)
  {
    Text(b, KeyAt(b, i)) == name
  }

  /** The loop that all four functions run: up to the first entry whose key is `name`. */
  method Search(b: seq<Byte>, name: seq<Byte>) returns (i: nat)
    requires Readable(b)
    ensures i == Find(LayoutOf(b).keys, name)
  {
    i := 0;
    while i < Count(b)
      invariant i <= Count(b) && forall j :: 0 <= j < i ==> LayoutOf(b).keys[j] != name
    {
      assert LayoutOf(b).keys[i] == Text(b, KeyAt(b, i));
      if KeyMatches(b, i, name) { return; }
      i := i + 1;
    }
  }

  method GetSfoValue(buffer: array<Byte>, name: seq<Byte>) returns (ret: int, value: nat)
    requires HasHeader(buffer[..])
    requires Magic(buffer[..]) == SFO_MAGIC ==>
             Readable(buffer[..]) && Writable(LayoutOf(buffer[..]), buffer.Length, name, 4)
    ensures ret == Code(Value(buffer[..], name))
    ensures ret == 0 ==> Value(buffer[..], name) == Ok(value)
  {
    var b := buffer[..];
    if Magic(b) != SFO_MAGIC { return INVALID_MAGIC, 0; }
    var i := Search(b, name);
    if i == Count(b) { return NOT_FOUND, 0; }
    assert LayoutOf(b).data[i] == DataAt(b, i);
    return 0, Le32(b, ValOfs(b) + DataOfs(b, i));
  }

  method GetSfoString(buffer: array<Byte>, name: seq<Byte>, str: array<Byte>, length: nat) returns (ret: int)
    requires HasHeader(buffer[..]) && 0 < length <= str.Length && str != buffer
    requires Magic(buffer[..]) == SFO_MAGIC ==> Readable(buffer[..]) && Copyable(buffer[..], name, length)
    modifies str
    ensures ret == Code(String(old(buffer[..]), name))
    ensures str[..] ==
            if ret == 0 then Truncated(String(old(buffer[..]), name).value, length) + old(str[length..])
            else old(str[..])
  {
    var b := buffer[..];
    if Magic(b) != SFO_MAGIC { return INVALID_MAGIC; }
    var i := Search(b, name);
    if i == Count(b) { return NOT_FOUND; }
    var at := ValOfs(b) + DataOfs(b, i);
    ghost var text := Text(b, at);
    assert String(b, name) == Ok(text) by { assert LayoutOf(b).data[i] == at; }
    CopyText(b, at, str, length);
    return 0;
  }

  method CopyText(b: seq<Byte>, at: nat, str: array<Byte>, length: nat)
    requires 0 < length <= str.Length && (Terminated(b, at) || at + length <= |b|)
    modifies str
    ensures str[..] == Truncated(Text(b, at), length) + old(str[length..])
  {
    forall k | 0 <= k < length { str[k] := 0; }
    StrNCpy(b, at, str, length);
    str[length - 1] := 0;
    assert str[..length] == Truncated(Text(b, at), length);
    assert str[length..] == old(str[length..]);
    assert str[..] == str[..length] + str[length..];
  }

  /** strncpy: up to `length` characters of the text, and zeros for the rest. */
  method StrNCpy(b: seq<Byte>, at: nat, str: array<Byte>, length: nat)
    requires length <= str.Length && (Terminated(b, at) || at + length <= |b|)
    modifies str
    ensures forall k :: 0 <= k < length ==> str[k] == if k < |Text(b, at)| then Text(b, at)[k] else 0
    ensures str[length..] == old(str[length..])
  {
    var i, ended := 0, false;
    while i < length
      invariant 0 <= i <= length && (!ended ==> i <= |Text(b, at)|) && (ended ==> |Text(b, at)| < i)
      invariant forall k :: 0 <= k < i ==> str[k] == if k < |Text(b, at)| then Text(b, at)[k] else 0
      invariant str[length..] == old(str[length..])
    {
      if !ended && b[at + i] == 0 { ended := true; }
      str[i] := if ended then 0 else b[at + i];
      i := i + 1;
    }
  }

  method SetSfoValue(buffer: array<Byte>, name: seq<Byte>, value: nat) returns (ret: int)
    requires value < 0x1_0000_0000 && HasHeader(buffer[..])
    requires Magic(buffer[..]) == SFO_MAGIC ==>
             Readable(buffer[..]) && Writable(LayoutOf(buffer[..]), buffer.Length, name, 4)
    modifies buffer
    ensures (buffer[..], ret) == Stored(old(buffer[..]), name, Bytes32(value))
  {
    ret := Store(buffer, name, Bytes32(value));
  }

  method SetSfoString(buffer: array<Byte>, name: seq<Byte>, str: seq<Byte>) returns (ret: int)
    requires NoZero(str) && HasHeader(buffer[..])
    requires Magic(buffer[..]) == SFO_MAGIC ==>
             Readable(buffer[..]) && Writable(LayoutOf(buffer[..]), buffer.Length, name, |str| + 1)
    modifies buffer
    ensures (buffer[..], ret) == Stored(old(buffer[..]), name, str + [0])
  {
    ret := Store(buffer, name, str + [0]);
  }

  /** What setSfoValue and setSfoString do alike, for the four bytes of the value or for the string
      with its terminator. */
  method Store(buffer: array<Byte>, name: seq<Byte>, bytes: seq<Byte>) returns (ret: int)
    requires HasHeader(buffer[..])
    requires Magic(buffer[..]) == SFO_MAGIC ==>
             Readable(buffer[..]) && Writable(LayoutOf(buffer[..]), buffer.Length, name, |bytes|)
    modifies buffer
    ensures (buffer[..], ret) == Stored(old(buffer[..]), name, bytes)
  {
    var b := buffer[..];
    if Magic(b) != SFO_MAGIC { return INVALID_MAGIC; }
    var i := Search(b, name);
    if i == Count(b) { return NOT_FOUND; }
    assert LayoutOf(b).data[i] == DataAt(b, i);
    var data := ValOfs(b) + DataOfs(b, i);
    forall k | 0 <= k < |bytes| { buffer[data + k] := bytes[k]; }
    assert buffer[..] == Splice(b, data, bytes);
    return 0;
  }

  // ----- Round trip and frame -----

  /** `a` up to `a + m` and `c` up to `c + n` have no byte in common. */
  predicate Apart(a: nat, m: nat, c: nat, n: nat) { a + m <= c || c + n <= a }

  /** Every key ends in the buffer, and every entry's data has its region of `sizes[i]` bytes, behind
      the tables, that shares no byte with a key or with another region. */
  ghost predicate Sound(l: Layout, size: nat) {
    && l.count == |l.keyAt| == |l.keys| == |l.data| == |l.sizes|
    && (forall i :: 0 <= i < l.count ==> l.keyAt[i] + |l.keys[i]| < size)
    && (forall i :: 0 <= i < l.count ==> HEADER_SIZE + 16 * l.count <= l.data[i] && l.data[i] + l.sizes[i] <= size)
    && (forall i, j :: 0 <= i < l.count && 0 <= j < l.count ==>
        Apart(l.data[i], l.sizes[i], l.keyAt[j], |l.keys[j]| + 1))
    && (forall i, j :: 0 <= i < l.count && 0 <= j < l.count && i != j ==>
        Apart(l.data[i], l.sizes[i], l.data[j], l.sizes[j]))
  }

  ghost predicate WellFormed(b: seq<Byte>) {
    HasTable(b) && Magic(b) == SFO_MAGIC && Sound(LayoutOf(b), |b|)
  }

  /** The region of the entry of `name`, if there is one, holds so many bytes. */
  predicate Fits(l: Layout, name: seq<Byte>, n: nat)
    requires |l.keys| == |l.sizes|
  {
    var i := Find(l.keys, name);
    i < |l.keys| ==> n <= l.sizes[i]
  }

  /** On a well-formed buffer all four functions can be called, if what is written or read as a number
      fits the region. */
  lemma {:induction false} WellFormedIsReadable(b: seq<Byte>, name: seq<Byte>, n: nat)
    requires WellFormed(b)
    ensures Readable(b)
    ensures Fits(LayoutOf(b), name, n) ==> Writable(LayoutOf(b), |b|, name, n) && Copyable(b, name, n)
  {
    var l := LayoutOf(b);
    forall i | 0 <= i < Count(b) ensures Terminated(b, KeyAt(b, i)) {
      assert l.keyAt[i] + |l.keys[i]| < |b|;
    }
  }

  /** Only the `n` bytes at `at` may differ. */
  ghost predicate SameOutside(b: seq<Byte>, b': seq<Byte>, at: nat, n: nat) {
    |b'| == |b| && forall k :: 0 <= k < |b| && !(at <= k < at + n) ==> b'[k] == b[k]
  }

  /** Then a region apart from them reads the same. */
  lemma {:induction false} RegionKept(b: seq<Byte>, b': seq<Byte>, at: nat, n: nat, size: nat, c: nat, m: nat)
    requires SameOutside(b, b', at, n) && n <= size && Apart(at, size, c, m) && c + m <= |b|
    ensures b'[c..c + m] == b[c..c + m]
    ensures m >= 4 ==> Le32(b', c) == Le32(b, c)
    ensures |Text(b, c)| < m ==> Text(b', c) == Text(b, c)
  {
    assert forall k :: c <= k < c + m ==> b'[k] == b[k];
    if |Text(b, c)| < m { SameText(b, b', c); }
  }

  lemma {:induction false} SameText(b: seq<Byte>, b': seq<Byte>, at: nat)
    requires |b| == |b'| && Terminated(b, at)
    requires forall k :: at <= k <= at + |Text(b, at)| ==> b'[k] == b[k]
    ensures Text(b', at) == Text(b, at)
  {
    assert b'[at..at + |Text(b, at)|] == b[at..at + |Text(b, at)|];
    TextIs(b', at, Text(b, at));
  }

  lemma {:induction false} SameTables(b: seq<Byte>, b': seq<Byte>)
    requires HasTable(b) && |b'| == |b|
    requires forall k :: 0 <= k < HEADER_SIZE + 16 * Count(b) ==> b'[k] == b[k]
    ensures HasTable(b') && Magic(b') == Magic(b) && Count(b') == Count(b)
    ensures forall i :: 0 <= i < Count(b) ==> KeyAt(b', i) == KeyAt(b, i)
    ensures forall i :: 0 <= i < Count(b) ==> DataAt(b', i) == DataAt(b, i)
    ensures forall i :: 0 <= i < Count(b) ==> TotalSize(b', i) == TotalSize(b, i)
  {
  }

  lemma {:induction false} SpliceKeepsLayout(b: seq<Byte>, i: nat, bytes: seq<Byte>)
    requires WellFormed(b) && i < LayoutOf(b).count && |bytes| <= LayoutOf(b).sizes[i]
    ensures var b' := Splice(b, LayoutOf(b).data[i], bytes);
      WellFormed(b') && LayoutOf(b') == LayoutOf(b)
  {
    var l := LayoutOf(b);
    var b' := Splice(b, l.data[i], bytes);
    SameTables(b, b');
    forall j | 0 <= j < l.count ensures Text(b', KeyAt(b', j)) == l.keys[j] {
      assert l.keyAt[j] == KeyAt(b, j) && l.keys[j] == Text(b, KeyAt(b, j));
      assert Apart(l.data[i], l.sizes[i], l.keyAt[j], |l.keys[j]| + 1);
      SameText(b, b', KeyAt(b, j));
    }
    var l' := LayoutOf(b');
    assert l'.keyAt == l.keyAt && l'.keys == l.keys && l'.data == l.data && l'.sizes == l.sizes;
  }

  /** A write of a key keeps the layout, so that get and set find the same entries before and after,
      and touches no byte but those of the entry's data. */
  lemma {:induction false} StoreFrame(b: seq<Byte>, name: seq<Byte>, bytes: seq<Byte>)
    requires WellFormed(b) && Fits(LayoutOf(b), name, |bytes|)
    ensures Writable(LayoutOf(b), |b|, name, |bytes|)
    ensures var (b', ret) := Stored(b, name, bytes); var l := LayoutOf(b); var i := Find(l.keys, name);
      && WellFormed(b') && LayoutOf(b') == l && |b'| == |b|
      && (if i == l.count then b' == b && ret == NOT_FOUND
          else ret == 0 && l.data[i] + |bytes| <= |b'| && b'[l.data[i]..l.data[i] + |bytes|] == bytes
               && SameOutside(b, b', l.data[i], |bytes|))
  {
    var l := LayoutOf(b);
    var i := Find(l.keys, name);
    if i < l.count { SpliceKeepsLayout(b, i, bytes); }
  }

  /** setSfoValue, then getSfoValue. */
  lemma {:induction false} ValueRoundTrip(b: seq<Byte>, name: seq<Byte>, value: nat)
    requires WellFormed(b) && Fits(LayoutOf(b), name, 4) && value < 0x1_0000_0000
    ensures Writable(LayoutOf(b), |b|, name, 4)
    ensures var (b', ret) := Stored(b, name, Bytes32(value));
      && WellFormed(b') && Writable(LayoutOf(b'), |b'|, name, 4) && ret == Code(Value(b', name))
      && Value(b', name) == if name in LayoutOf(b).keys then Ok(value) else Error(NOT_FOUND)
  {
    StoreFrame(b, name, Bytes32(value));
    var l, b' := LayoutOf(b), Stored(b, name, Bytes32(value)).0;
    var i := Find(l.keys, name);
    if i < l.count { Bytes32Read(value, b', l.data[i]); }
  }

  lemma {:induction false} StringIs(b: seq<Byte>, name: seq<Byte>)
    requires HasTable(b) && Magic(b) == SFO_MAGIC
    ensures var l := LayoutOf(b); var i := Find(l.keys, name);
      String(b, name) == (if i == l.count then Error(NOT_FOUND) else Ok(Text(b, l.data[i])))
          && (i < l.count <==> name in l.keys)
  {
  }

  lemma {:induction false} StringWritten(b: seq<Byte>, l: Layout, name: seq<Byte>, s: seq<Byte>)
    requires HasTable(b) && Magic(b) == SFO_MAGIC && LayoutOf(b) == l && NoZero(s)
    requires var i := Find(l.keys, name);
      && i < l.count && l.data[i] + |s| + 1 <= |b|
      && b[l.data[i]..l.data[i] + |s| + 1] == s + [0]
    ensures String(b, name) == Ok(s)
  {
    TextOfSlice(b, l.data[Find(l.keys, name)], s);
    StringIs(b, name);
  }

  /** setSfoString, then getSfoString. */
  lemma {:induction false} StringRoundTrip(b: seq<Byte>, name: seq<Byte>, s: seq<Byte>)
    requires WellFormed(b) && Fits(LayoutOf(b), name, |s| + 1) && NoZero(s)
    ensures Writable(LayoutOf(b), |b|, name, |s| + 1)
    ensures var (b', ret) := Stored(b, name, s + [0]);
      && WellFormed(b') && ret == Code(String(b', name))
      && String(b', name) == if name in LayoutOf(b).keys then Ok(s) else Error(NOT_FOUND)
  {
    StoreFrame(b, name, s + [0]);
    var l, b' := LayoutOf(b), Stored(b, name, s + [0]).0;
    assert |s + [0]| == |s| + 1;
    if Find(l.keys, name) < l.count { StringWritten(b', l, name, s); } else { StringIs(b', name); }
  }

  lemma {:induction false} TextOfSlice(b: seq<Byte>, at: nat, s: seq<Byte>)
    requires at + |s| + 1 <= |b| && NoZero(s) && b[at..at + |s| + 1] == s + [0]
    ensures Text(b, at) == s
  {
    assert b[at..at + |s|] == b[at..at + |s| + 1][..|s|] == s;
    assert b[at + |s|] == b[at..at + |s| + 1][|s|] == 0;
    TextIs(b, at, s);
  }

  /** What a get of another key reads: a number when its region holds one, a text when it ends there. */
  lemma {:induction false} OtherKeyKept(b: seq<Byte>, name: seq<Byte>, bytes: seq<Byte>, other: seq<Byte>)
    requires WellFormed(b) && Fits(LayoutOf(b), name, |bytes|) && other != name
    ensures Writable(LayoutOf(b), |b|, name, |bytes|)
    ensures var b' := Stored(b, name, bytes).0; var l := LayoutOf(b); var j := Find(l.keys, other);
      && WellFormed(b') && LayoutOf(b') == l
      && (j == l.count ==> String(b', other) == String(b, other) == Error(NOT_FOUND))
      && (j < l.count && 4 <= l.sizes[j] ==> Value(b', other) == Value(b, other))
      && (j < l.count && |Text(b, l.data[j])| < l.sizes[j] ==> String(b', other) == String(b, other))
  {
    StoreFrame(b, name, bytes);
    var l, b' := LayoutOf(b), Stored(b, name, bytes).0;
    var i, j := Find(l.keys, name), Find(l.keys, other);
    if i < l.count && j < l.count {
      RegionKept(b, b', l.data[i], |bytes|, l.sizes[i], l.data[j], l.sizes[j]);
    }
  }

  // ----- Any number of writes -----

  datatype Write = SetValue(name: seq<Byte>, value: nat) | SetString(name: seq<Byte>, str: seq<Byte>)

  function Data(w: Write): seq<Byte> {
    match w
    case SetValue(_, value) => Bytes32(value)
    case SetString(_, str) => str + [0]
  }

  ghost predicate AllFit(l: Layout, writes: seq<Write>)
    requires |l.keys| == |l.sizes|
  {
    forall k :: 0 <= k < |writes| ==> Fits(l, writes[k].name, |Data(writes[k])|)
  }

  /** The buffer after all writes. */
  ghost function Run(b: seq<Byte>, writes: seq<Write>): (b': seq<Byte>)
    requires WellFormed(b) && AllFit(LayoutOf(b), writes)
    ensures WellFormed(b') && LayoutOf(b') == LayoutOf(b) && |b'| == |b|
  {
    if writes == [] then b
    else
      var front, last := writes[..|writes| - 1], writes[|writes| - 1];
      var before := Run(b, front);
      StoreFrame(before, last.name, Data(last));
      Stored(before, last.name, Data(last)).0
  }

  /** The last write of `name`. */
  function LastWrite(writes: seq<Write>, name: seq<Byte>): Option<Write> {
    if writes == [] then None
    else if writes[|writes| - 1].name == name then Some(writes[|writes| - 1])
    else LastWrite(writes[..|writes| - 1], name)
  }

  /** The region of entry `i` begins with the data of `last`, or is that of `b0`. */
  ghost predicate Holds(b0: seq<Byte>, b: seq<Byte>, at: nat, size: nat, last: Option<Write>)
    requires at + size <= |b0| == |b|
  {
    if last.None? then b[at..at + size] == b0[at..at + size]
    else |Data(last.value)| <= size && b[at..at + |Data(last.value)|] == Data(last.value)
  }

  lemma {:induction false} WriteElsewhere(b0: seq<Byte>, b: seq<Byte>, b': seq<Byte>, at: nat, size: nat,
                                          last: Option<Write>, c: nat, n: nat, m: nat)
    requires at + size <= |b0| == |b| && Holds(b0, b, at, size, last)
    requires SameOutside(b, b', c, n) && n <= m && Apart(c, m, at, size)
    ensures Holds(b0, b', at, size, last)
  {
    RegionKept(b, b', c, n, m, at, if last.None? then size else |Data(last.value)|);
  }

  /** What StoreFrame says of one write `w`, for the region of `name`. */
  lemma {:induction false} OneMoreWrite(b0: seq<Byte>, b: seq<Byte>, b': seq<Byte>, l: Layout, name: seq<Byte>,
                                        w: Write, last: Option<Write>)
    requires Sound(l, |b|) && |b0| == |b| && name in l.keys
    requires var i := Find(l.keys, name); Holds(b0, b, l.data[i], l.sizes[i], last)
    requires var j := Find(l.keys, w.name);
      if j == l.count then b' == b
      else && |Data(w)| <= l.sizes[j] && |b'| == |b| && b'[l.data[j]..l.data[j] + |Data(w)|] == Data(w)
           && SameOutside(b, b', l.data[j], |Data(w)|)
    ensures var i := Find(l.keys, name);
      |b'| == |b| && Holds(b0, b', l.data[i], l.sizes[i], if w.name == name then Some(w) else last)
  {
    var i, j := Find(l.keys, name), Find(l.keys, w.name);
    if j < l.count && w.name != name {
      assert Apart(l.data[j], l.sizes[j], l.data[i], l.sizes[i]);
      WriteElsewhere(b0, b, b', l.data[i], l.sizes[i], last, l.data[j], |Data(w)|, l.sizes[j]);
    }
  }

  lemma {:induction false} LastWriteStep(b0: seq<Byte>, b: seq<Byte>, l: Layout, name: seq<Byte>, w: Write,
                                         last: Option<Write>)
    requires WellFormed(b) && LayoutOf(b) == l && |b0| == |b| && name in l.keys && Fits(l, w.name, |Data(w)|)
    requires var i := Find(l.keys, name); l.data[i] + l.sizes[i] <= |b| && Holds(b0, b, l.data[i], l.sizes[i], last)
    ensures Writable(l, |b|, w.name, |Data(w)|)
    ensures var b', i := Stored(b, w.name, Data(w)).0, Find(l.keys, name);
      |b'| == |b| && Holds(b0, b', l.data[i], l.sizes[i], if w.name == name then Some(w) else last)
  {
    StoreFrame(b, w.name, Data(w));
    OneMoreWrite(b0, b, Stored(b, w.name, Data(w)).0, l, name, w, last);
  }

  /** After any writes that fit, every key's region begins with the data of the last write to it, and
      is as it was if there was none. */
  lemma {:induction false} LastWriteWins(b: seq<Byte>, writes: seq<Write>, name: seq<Byte>)
    requires WellFormed(b) && AllFit(LayoutOf(b), writes) && name in LayoutOf(b).keys
    ensures var l := LayoutOf(b); var i := Find(l.keys, name);
      i < l.count && l.data[i] + l.sizes[i] <= |b|
          && Holds(b, Run(b, writes), l.data[i], l.sizes[i], LastWrite(writes, name))
  {
    if writes != [] {
      var front, last := writes[..|writes| - 1], writes[|writes| - 1];
      LastWriteWins(b, front, name);
      LastWriteStep(b, Run(b, front), LayoutOf(b), name, last, LastWrite(front, name));
    }
  }
}
