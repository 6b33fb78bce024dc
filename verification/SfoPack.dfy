/** The buffers that src/sfo.h lays out, written field by field, and what the functions of src/sfo.c
    read in them. */
module SfoPack {
  import opened Common
  import opened Bytes
  import opened Sfo

  /** One entry, and its region of `size` bytes that begins with `data`. */
  datatype Item = Item(key: seq<Byte>, alignment: Byte, kind: Byte, data: seq<Byte>, size: nat)

  // ----- The bytes -----

  /** SfoEntry: nameofs, alignment, type, valsize, totalsize, dataofs. */
  function EntryBytes(item: Item, nameofs: nat, dataofs: nat): (s: seq<Byte>)
    ensures |s| == 16
  {
    Little(nameofs, 2) + [item.alignment] + [item.kind]
    + Little(|item.data|, 4) + Little(item.size, 4) + Little(dataofs, 4)
  }

  function Entries(items: seq<Item>, nameofs: nat, dataofs: nat): (s: seq<Byte>)
    ensures |s| == 16 * |items|
  {
    if items == [] then []
    else
      var first := items[0];
      EntryBytes(first, nameofs, dataofs)
      + Entries(items[1..], nameofs + |first.key| + 1, dataofs + first.size)
  }

  function Keys(items: seq<Item>): seq<Byte> {
    if items == [] then [] else items[0].key + [0] + Keys(items[1..])
  }

  function Region(item: Item): (s: seq<Byte>)
    requires |item.data| <= item.size
    ensures |s| == item.size && item.data <= s
  {
    item.data + seq(item.size - |item.data|, _ => 0)
  }

  function Regions(items: seq<Item>): seq<Byte>
    requires forall item :: item in items ==> |item.data| <= item.size
  {
    if items == [] then [] else Region(items[0]) + Regions(items[1..])
  }

  /** SfoHeader: the magic "\0PSF", version, keyofs, valofs, count. */
  function Header(version: nat, items: seq<Item>): (s: seq<Byte>)
    ensures |s| == 20
  {
    var keyofs := 20 + 16 * |items|;
    [0x00, 0x50, 0x53, 0x46] + Little(version, 4)
    + Little(keyofs, 4) + Little(keyofs + |Keys(items)|, 4) + Little(|items|, 4)
  }

  /** The fields are wide enough, the keys are C strings and all different. */
  ghost predicate Packable(items: seq<Item>) {
    && (forall item :: item in items ==> NoZero(item.key) && |item.data| <= item.size)
    && (forall i, j :: 0 <= i < j < |items| ==> items[i].key != items[j].key)
    && |Keys(items)| <= 0x1_0000
    && 20 + 16 * |items| + |Keys(items)| + |Regions(items)| < 0x1_0000_0000
  }

  function Pack(version: nat, items: seq<Item>): seq<Byte>
    requires forall item :: item in items ==> |item.data| <= item.size
  {
    Header(version, items) + Entries(items, 0, 0) + Keys(items) + Regions(items)
  }

  // ----- Where each item is -----

  function KeyPos(items: seq<Item>, i: nat): nat
    requires i <= |items|
  {
    if i == 0 then 0 else |items[0].key| + 1 + KeyPos(items[1..], i - 1)
  }

  function DataPos(items: seq<Item>, i: nat): nat
    requires i <= |items|
  {
    if i == 0 then 0 else items[0].size + DataPos(items[1..], i - 1)
  }

  lemma {:induction false} EntryIn(items: seq<Item>, nameofs: nat, dataofs: nat, i: nat)
    requires i < |items|
    ensures Has(Entries(items, nameofs, dataofs), 16 * i,
                EntryBytes(items[i], nameofs + KeyPos(items, i), dataofs + DataPos(items, i)))
  {
    var item, rest := items[0], items[1..];
    var nextName, nextData := nameofs + |item.key| + 1, dataofs + item.size;
    var first, more := EntryBytes(item, nameofs, dataofs), Entries(rest, nextName, nextData);
    assert Entries(items, nameofs, dataofs) == first + more;
    if i == 0 {
      HasFirst(first, more);
    } else {
      EntryIn(rest, nextName, nextData, i - 1);
      assert nameofs + KeyPos(items, i) == nextName + KeyPos(rest, i - 1);
      assert dataofs + DataPos(items, i) == nextData + DataPos(rest, i - 1);
      HasMore(first, more, 16 * (i - 1), EntryBytes(items[i], nameofs + KeyPos(items, i), dataofs + DataPos(items, i)));
    }
  }

  lemma {:induction false} KeyIn(items: seq<Item>, i: nat)
    requires i < |items|
    ensures Has(Keys(items), KeyPos(items, i), items[i].key + [0])
  {
    if i == 0 {
      HasFirst(items[0].key + [0], Keys(items[1..]));
    } else {
      KeyIn(items[1..], i - 1);
      HasMore(items[0].key + [0], Keys(items[1..]), KeyPos(items[1..], i - 1), items[i].key + [0]);
    }
  }

  lemma {:induction false} DataIn(items: seq<Item>, i: nat)
    requires i < |items| && forall item :: item in items ==> |item.data| <= item.size
    ensures Has(Regions(items), DataPos(items, i), Region(items[i]))
  {
    if i == 0 {
      HasFirst(Region(items[0]), Regions(items[1..]));
    } else {
      DataIn(items[1..], i - 1);
      HasMore(Region(items[0]), Regions(items[1..]), DataPos(items[1..], i - 1), Region(items[i]));
    }
  }

  /** The regions do not overlap. */
  lemma {:induction false} DataOrder(items: seq<Item>, i: nat, j: nat)
    requires i < j < |items|
    ensures DataPos(items, i) + items[i].size <= DataPos(items, j)
  {
    if i > 0 { DataOrder(items[1..], i - 1, j - 1); }
  }

  // ----- What is read -----

  lemma {:induction false} Read16(b: seq<Byte>, at: nat, v: nat)
    requires Has(b, at, Little(v, 2)) && v < 0x1_0000
    ensures at + 2 <= |b| && Le16(b, at) == v
  {
    assert Slice(b, at, Little(v, 2));
    var s := b[at..at + 2];
    assert b[at] == s[0] && b[at + 1] == s[1];
    assert s[1..] == Little(v / 256, 1);
  }

  // ----- The buffer by its parts -----

  /** Item `i`, in a buffer with the keys at `k` and the regions at `v`: its entry, its key `pos` bytes
      behind `k`, and its region `dpos` bytes behind `v`. */
  ghost predicate PlacedAt(b: seq<Byte>, k: nat, v: nat, i: nat, item: Item, pos: nat, dpos: nat) {
    && |item.data| <= item.size && NoZero(item.key)
    && pos < 0x1_0000 && dpos + item.size < 0x1_0000_0000
    && k + pos + |item.key| < v && v + dpos + item.size <= |b|
    && Has(b, 20 + 16 * i, EntryBytes(item, pos, dpos))
    && Has(b, k + pos, item.key + [0]) && Has(b, v + dpos, Region(item))
  }

  /** The same, over the one value of `u`. */
  ghost predicate Placed(b: seq<Byte>, k: nat, v: nat, i: nat, item: Item, pos: nat, dpos: nat) {
    forall u {:trigger PlacedAt(b, k, v, i, u, pos, dpos)} :: u == item ==> PlacedAt(b, k, v, i, u, pos, dpos)
  }

  /** From the places in the entries `es`, the keys `ks` and the regions `rs` to those in the buffer. */
  lemma {:induction false} PlacedFrom(b: seq<Byte>, k: nat, v: nat, i: nat, item: Item, pos: nat, dpos: nat,
                                      es: seq<Byte>, ks: seq<Byte>, rs: seq<Byte>, e: seq<Byte>, r: seq<Byte>)
    requires |item.data| <= item.size && NoZero(item.key) && e == EntryBytes(item, pos, dpos) && r == Region(item)
    requires v == k + |ks| && |ks| <= 0x1_0000 && |rs| < 0x1_0000_0000
    requires Has(b, 20, es) && Has(b, k, ks) && Has(b, v, rs)
    requires Has(es, 16 * i, e) && Has(ks, pos, item.key + [0]) && Has(rs, dpos, r)
    ensures Placed(b, k, v, i, item, pos, dpos)
  {
    HasPart(b, 20, es, 16 * i, e);
    HasPart(b, k, ks, pos, item.key + [0]);
    HasPart(b, v, rs, dpos, r);
    HasLength(ks, pos, item.key + [0]);
    HasLength(rs, dpos, r);
  }

  lemma {:induction false} Places(items: seq<Item>, b: seq<Byte>, k: nat, v: nat, i: nat)
    requires Packable(items) && i < |items| && v == k + |Keys(items)|
    requires Has(b, 20, Entries(items, 0, 0)) && Has(b, k, Keys(items)) && Has(b, v, Regions(items))
    ensures Placed(b, k, v, i, items[i], KeyPos(items, i), DataPos(items, i))
  {
    EntryIn(items, 0, 0, i);
    KeyIn(items, i);
    DataIn(items, i);
    PlacedFrom(b, k, v, i, items[i], KeyPos(items, i), DataPos(items, i), Entries(items, 0, 0), Keys(items),
               Regions(items), EntryBytes(items[i], KeyPos(items, i), DataPos(items, i)), Region(items[i]));
  }

  /** A buffer of these items, whose keys and regions are at `ps` and `ds`. */
  ghost predicate Laid(b: seq<Byte>, items: seq<Item>, k: nat, v: nat, ps: seq<nat>, ds: seq<nat>) {
    && HasTable(b) && Magic(b) == SFO_MAGIC && Count(b) == |items| && KeyOfs(b) == k && ValOfs(b) == v
    && 20 + 16 * |items| <= k <= v && |ps| == |ds| == |items|
    && (forall i :: 0 <= i < |items| ==> Placed(b, k, v, i, items[i], ps[i], ds[i]))
    && (forall i, j :: 0 <= i < j < |items| ==> ds[i] + items[i].size <= ds[j] && items[i].key != items[j].key)
  }

  /** The fields of the header, by their order. */
  lemma {:induction false} HeaderFields(version: nat, items: seq<Item>)
    ensures var h, k := Header(version, items), 20 + 16 * |items|;
      Has(h, 0, [0x00, 0x50, 0x53, 0x46]) && Has(h, 8, Little(k, 4))
      && Has(h, 12, Little(k + |Keys(items)|, 4)) && Has(h, 16, Little(|items|, 4))
  {
  }

  lemma {:induction false} HeaderRead(b: seq<Byte>, h: seq<Byte>, k: nat, v: nat, n: nat)
    requires Has(b, 0, h) && |h| == 20 && k < 0x1_0000_0000 && v < 0x1_0000_0000 && n < 0x1_0000_0000
    requires Has(h, 0, [0x00, 0x50, 0x53, 0x46]) && Has(h, 8, Little(k, 4))
    requires Has(h, 12, Little(v, 4)) && Has(h, 16, Little(n, 4)) && 20 + 16 * n <= |b|
    ensures HasTable(b) && Magic(b) == SFO_MAGIC && KeyOfs(b) == k && ValOfs(b) == v && Count(b) == n
  {
    HasPart(b, 0, h, 0, [0x00, 0x50, 0x53, 0x46]);
    HasPart(b, 0, h, 8, Little(k, 4));
    HasPart(b, 0, h, 12, Little(v, 4));
    HasPart(b, 0, h, 16, Little(n, 4));
    Read32(b, 8, k);
    Read32(b, 12, v);
    Read32(b, 16, n);
    assert Slice(b, 0, [0x00, 0x50, 0x53, 0x46]);
    assert b[0] == b[0..4][0] && b[1] == b[0..4][1] && b[2] == b[0..4][2] && b[3] == b[0..4][3];
  }

  /** Every packable list has its buffer. */
  lemma {:induction false} Lays(version: nat, items: seq<Item>)
      returns (b: seq<Byte>, k: nat, v: nat, ps: seq<nat>, ds: seq<nat>)
    requires Packable(items)
    ensures b == Pack(version, items) && Laid(b, items, k, v, ps, ds)
  {
    b, k := Pack(version, items), 20 + 16 * |items|;
    v := k + |Keys(items)|;
    ps := seq(|items|, i requires 0 <= i < |items| => KeyPos(items, i));
    ds := seq(|items|, i requires 0 <= i < |items| => DataPos(items, i));
    FourParts(b, Header(version, items), Entries(items, 0, 0), Keys(items), Regions(items));
    HeaderFields(version, items);
    HeaderRead(b, Header(version, items), k, v, |items|);
    forall i | 0 <= i < |items| ensures Placed(b, k, v, i, items[i], ps[i], ds[i]) { Places(items, b, k, v, i); }
    forall i, j | 0 <= i < j < |items| ensures ds[i] + items[i].size <= ds[j] { DataOrder(items, i, j); }
  }

  // ----- What is found in it -----

  lemma {:induction false} EntryFields(b: seq<Byte>, at: nat, item: Item, nameofs: nat, dataofs: nat)
    requires Has(b, at, EntryBytes(item, nameofs, dataofs))
    requires nameofs < 0x1_0000 && dataofs < 0x1_0000_0000 && item.size < 0x1_0000_0000
    ensures at + 16 <= |b| && Le16(b, at) == nameofs && Le32(b, at + 8) == item.size && Le32(b, at + 12) == dataofs
  {
    var e := EntryBytes(item, nameofs, dataofs);
    HasPart(b, at, e, 0, Little(nameofs, 2));
    HasPart(b, at, e, 8, Little(item.size, 4));
    HasPart(b, at, e, 12, Little(dataofs, 4));
    Read16(b, at, nameofs);
    Read32(b, at + 8, item.size);
    Read32(b, at + 12, dataofs);
  }

  lemma {:induction false} HasText(b: seq<Byte>, at: nat, s: seq<Byte>)
    requires Has(b, at, s + [0]) && NoZero(s)
    ensures at + |s| < |b| && Text(b, at) == s
  {
    assert Slice(b, at, s + [0]);
    TextOfSlice(b, at, s);
  }

  lemma {:induction false} EntryRead(b: seq<Byte>, i: nat, item: Item, pos: nat, dpos: nat)
    requires HasTable(b) && i < Count(b) && Has(b, 20 + 16 * i, EntryBytes(item, pos, dpos))
    requires pos < 0x1_0000 && dpos < 0x1_0000_0000 && item.size < 0x1_0000_0000
    ensures NameOfs(b, i) == pos && DataOfs(b, i) == dpos && TotalSize(b, i) == item.size
  {
    EntryFields(b, 20 + 16 * i, item, pos, dpos);
  }

  /** What LayoutOf finds of an item. */
  lemma {:induction false} ItemRead(b: seq<Byte>, k: nat, v: nat, i: nat, item: Item, pos: nat, dpos: nat)
    requires HasTable(b) && i < Count(b) && KeyOfs(b) == k && ValOfs(b) == v && Placed(b, k, v, i, item, pos, dpos)
    ensures KeyAt(b, i) == k + pos && DataAt(b, i) == v + dpos && TotalSize(b, i) == item.size
    ensures Text(b, k + pos) == item.key && k + pos + |item.key| < v && v + dpos + item.size <= |b|
  {
    assert PlacedAt(b, k, v, i, item, pos, dpos);
    EntryRead(b, i, item, pos, dpos);
    HasText(b, k + pos, item.key);
  }

  lemma {:induction false} DataRead(b: seq<Byte>, k: nat, v: nat, i: nat, item: Item, pos: nat, dpos: nat)
    requires Placed(b, k, v, i, item, pos, dpos)
    ensures Has(b, v + dpos, item.data)
  {
    assert PlacedAt(b, k, v, i, item, pos, dpos);
    HasFirst(item.data, seq(item.size - |item.data|, _ => 0));
    HasPart(b, v + dpos, Region(item), 0, item.data);
  }

  ghost predicate LaysOut(b: seq<Byte>, l: Layout, items: seq<Item>) {
    && l.count == |items| == |l.keyAt| == |l.keys| == |l.data| == |l.sizes|
    && forall i :: 0 <= i < |items| ==>
         && l.keys[i] == items[i].key && l.sizes[i] == items[i].size
         && l.data[i] + l.sizes[i] <= |b| && Has(b, l.data[i], items[i].data)
  }

  lemma {:induction false} SoundFrom(l: Layout, v: nat, size: nat)
    requires l.count == |l.keyAt| == |l.keys| == |l.data| == |l.sizes| && HEADER_SIZE + 16 * l.count <= v
    requires forall i :: 0 <= i < l.count ==> l.keyAt[i] + |l.keys[i]| < v <= l.data[i]
    requires forall i :: 0 <= i < l.count ==> l.data[i] + l.sizes[i] <= size
    requires forall i, j :: 0 <= i < j < l.count ==> l.data[i] + l.sizes[i] <= l.data[j]
    ensures Sound(l, size)
  {
  }

  lemma {:induction false} LaidLayout(b: seq<Byte>, items: seq<Item>, k: nat, v: nat, ps: seq<nat>, ds: seq<nat>,
                                      i: nat)
    requires Laid(b, items, k, v, ps, ds) && i < |items|
    ensures var l := LayoutOf(b);
      && l.keyAt[i] == k + ps[i] && l.keys[i] == items[i].key && k + ps[i] + |items[i].key| < v
      && l.data[i] == v + ds[i] && l.sizes[i] == items[i].size && l.data[i] + l.sizes[i] <= |b|
  {
    ItemRead(b, k, v, i, items[i], ps[i], ds[i]);
  }

  /** Such a buffer is well-formed: so every law about well-formed buffers is about these. */
  lemma {:induction false} LaidIsWellFormed(b: seq<Byte>, items: seq<Item>, k: nat, v: nat, ps: seq<nat>, ds: seq<nat>)
    requires Laid(b, items, k, v, ps, ds)
    ensures WellFormed(b)
  {
    var l := LayoutOf(b);
    forall i | 0 <= i < |items|
      ensures l.keyAt[i] + |l.keys[i]| < v <= l.data[i] && l.data[i] + l.sizes[i] <= |b|
    {
      LaidLayout(b, items, k, v, ps, ds, i);
    }
    forall i, j | 0 <= i < j < |items| ensures l.data[i] + l.sizes[i] <= l.data[j] {
      LaidLayout(b, items, k, v, ps, ds, i);
      LaidLayout(b, items, k, v, ps, ds, j);
      assert ds[i] + items[i].size <= ds[j];
    }
    SoundFrom(l, v, |b|);
  }

  /** And each key, and its data, are where the functions look. */
  lemma {:induction false} LaidData(b: seq<Byte>, items: seq<Item>, k: nat, v: nat, ps: seq<nat>, ds: seq<nat>)
    requires Laid(b, items, k, v, ps, ds)
    ensures LaysOut(b, LayoutOf(b), items)
  {
    var l := LayoutOf(b);
    forall i | 0 <= i < |items|
      ensures l.keys[i] == items[i].key && l.sizes[i] == items[i].size
      ensures l.data[i] + l.sizes[i] <= |b| && Has(b, l.data[i], items[i].data)
    {
      LaidLayout(b, items, k, v, ps, ds, i);
      DataRead(b, k, v, i, items[i], ps[i], ds[i]);
    }
  }

  lemma {:induction false} FoundIn(l: Layout, items: seq<Item>, i: nat)
    requires Packable(items) && i < |items| == |l.keys| && forall j :: 0 <= j < |items| ==> l.keys[j] == items[j].key
    ensures Find(l.keys, items[i].key) == i
  {
    var j := Find(l.keys, items[i].key);
    assert l.keys[i] == items[i].key;
    assert j <= i && l.keys[j] == items[j].key;
  }

  // ----- What the functions read -----

  lemma {:induction false} PackedIsWellFormed(version: nat, items: seq<Item>)
    requires Packable(items)
    ensures WellFormed(Pack(version, items))
  {
    var b, k, v, ps, ds := Lays(version, items);
    LaidIsWellFormed(b, items, k, v, ps, ds);
  }

  /** getSfoValue of a key whose data are the four bytes of a number. */
  lemma {:induction false} PackedValue(version: nat, items: seq<Item>, i: nat, value: nat)
    requires Packable(items) && i < |items| && value < 0x1_0000_0000 && items[i].data == Little(value, 4)
    ensures var b := Pack(version, items);
      WellFormed(b) && Writable(LayoutOf(b), |b|, items[i].key, 4) && Value(b, items[i].key) == Ok(value)
  {
    var b, k, v, ps, ds := Lays(version, items);
    LaidIsWellFormed(b, items, k, v, ps, ds);
    LaidData(b, items, k, v, ps, ds);
    FoundIn(LayoutOf(b), items, i);
    Read32(b, LayoutOf(b).data[i], value);
  }

  /** getSfoString of a key whose data are a C string. */
  lemma {:induction false} PackedString(version: nat, items: seq<Item>, i: nat, s: seq<Byte>)
    requires Packable(items) && i < |items| && NoZero(s) && items[i].data == s + [0]
    ensures var b := Pack(version, items); WellFormed(b) && String(b, items[i].key) == Ok(s)
  {
    var b, k, v, ps, ds := Lays(version, items);
    LaidIsWellFormed(b, items, k, v, ps, ds);
    LaidData(b, items, k, v, ps, ds);
    FoundIn(LayoutOf(b), items, i);
    HasText(b, LayoutOf(b).data[i], s);
    StringIs(b, items[i].key);
  }

  /** And of a key that is not there. */
  lemma {:induction false} PackedMissing(version: nat, items: seq<Item>, name: seq<Byte>)
    requires Packable(items) && forall i :: 0 <= i < |items| ==> items[i].key != name
    ensures var b := Pack(version, items);
      WellFormed(b) && Writable(LayoutOf(b), |b|, name, 4)
      && Value(b, name) == Error(NOT_FOUND) && String(b, name) == Error(NOT_FOUND)
  {
    var b, k, v, ps, ds := Lays(version, items);
    LaidIsWellFormed(b, items, k, v, ps, ds);
    LaidData(b, items, k, v, ps, ds);
    forall j | 0 <= j < |items| ensures LayoutOf(b).keys[j] != name { }
  }
}
