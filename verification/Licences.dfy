/** The licence walk of src/refresh.c: a depth-limited recursion that first counts and then copies
    into a database with unique keys. */
module Licences {
  import opened Common
  import opened PathText
  import opened FileTree
  import opened Storage
  import PathInfo

  /** strcasecmp of the last four characters with ".rif". */
  predicate RifName(name: Name) {
    |name| >= 4 && SameText(name[|name| - 4..], ".rif")
  }

  predicate IsRif(t: Nodes, p: Path) {
    p in t && p != [] && t[p].File? && RifName(p[|p| - 1])
  }

  lemma {:induction false} RifNames(name: Name)
    ensures RifName(name) <==> exists stem, ext :: name == stem + ext && SameText(ext, ".rif")
  {
    if RifName(name) { assert name == name[..|name| - 4] + name[|name| - 4..]; }
  }

  /** The two depths that are walked: a file in a title's directory, and one in a directory in that. */
  lemma {:induction false} RifsAre(t: Nodes, dir: Path, p: Path)
    ensures p in Rifs(t, dir, 1) <==> IsRif(t, p) && exists title, file :: p == dir + [title] + [file]
    ensures p in Rifs(t, dir, 2) <==> IsRif(t, p) && exists title, dlc, file :: p == dir + [title] + [dlc] + [file]
  {
    if |p| == |dir| + 2 && dir <= p { assert p == dir + [p[|dir|]] + [p[|dir| + 1]]; }
    if |p| == |dir| + 3 && dir <= p { assert p == dir + [p[|dir|]] + [p[|dir| + 1]] + [p[|dir| + 2]]; }
  }

  /** What is read of a licence file. */
  function Blob(t: Nodes, p: Path): seq<Byte>
    requires IsRif(t, p)
  {
    if |t[p].data| < RIF_SIZE then t[p].data else t[p].data[..RIF_SIZE]
  }

  /** The content id of a licence, the key of its row. */
  function ContentId(rif: seq<Byte>): seq<Byte> { Text(rif, 0x10) }

  type Rows = map<seq<Byte>, seq<Byte>>

  class Database {
    var rows: Rows

    constructor ()
      ensures rows == map[]
    {
      rows := map[];
    }

    /** insert_rif: refuses a key that is there already. */
    method InsertRif(disk: Disk, rif: seq<Byte>) returns (rc: int)
      modifies this, disk`faults
      ensures disk.faults >= old(disk.faults)
      ensures rc == 0 ==> ContentId(rif) !in old(rows) && rows == old(rows)[ContentId(rif) := rif]
      ensures rc != 0 ==> rows == old(rows) && (disk.faults == old(disk.faults) ==> ContentId(rif) in rows)
    {
      var failed := disk.Fault();
      if failed || ContentId(rif) in rows { return 1; }
      rows := rows[ContentId(rif) := rif];
      return 0;
    }
  }

  /** license_data_t. */
  class Data {
    var copy_pass: bool
    var count: nat
    var copied: nat
    var cur_depth: nat
    var max_depth: nat
    /** The greatest cur_depth so far. */
    ghost var deepest: nat

    constructor ()
      ensures !copy_pass && count == 0 && copied == 0 && cur_depth == 0 && max_depth == 1 && deepest == 0
    {
      copy_pass, count, copied, cur_depth, max_depth, deepest := false, 0, 0, 0, 1, 0;
    }
  }

  // ----- What a walk over some licence files does -----

  datatype Totals = Totals(count: nat, copied: nat, rows: Rows)

  ghost function Now(data: Data, db: Database): Totals
    reads data, db
  {
    Totals(data.count, data.copied, db.rows)
  }

  /** Existing rows stay; every new one is a licence file's; there are as many as were copied; and
      undisturbed, every complete licence file has a row of its key. */
  ghost predicate Copied(t: Nodes, a: Totals, b: Totals, s: set<Path>, quiet: bool) {
    && a.count == b.count
    && a.copied <= b.copied <= a.copied + |s|
    && |b.rows| == |a.rows| + b.copied - a.copied
    && (forall k :: k in a.rows ==> k in b.rows && b.rows[k] == a.rows[k])
    && (forall k :: k in b.rows && k !in a.rows ==> exists p :: p in s && RowOf(t, p, k, b.rows[k]))
    && (quiet ==> forall p :: p in s && IsRif(t, p) && |Blob(t, p)| == RIF_SIZE ==> ContentId(Blob(t, p)) in b.rows)
  }

  ghost predicate RowOf(t: Nodes, p: Path, key: seq<Byte>, rif: seq<Byte>) {
    IsRif(t, p) && rif == Blob(t, p) && |rif| == RIF_SIZE && key == ContentId(rif)
  }

  ghost predicate Counted(a: Totals, b: Totals, s: set<Path>, quiet: bool) {
    && a.rows == b.rows && a.copied == b.copied
    && a.count <= b.count <= a.count + |s|
    && (quiet ==> b.count == a.count + |s|)
  }

  /** The two passes. (Over every `u` equal to `b`, so that a proof takes the definition apart only
      where it names one of the two cases.) */
  ghost predicate Walked(t: Nodes, pass: bool, a: Totals, b: Totals, s: set<Path>, quiet: bool) {
    forall u {:trigger Copied(t, a, u, s, quiet)} {:trigger Counted(a, u, s, quiet)} :: u == b ==>
      if pass then Copied(t, a, u, s, quiet) else Counted(a, u, s, quiet)
  }

  lemma {:induction false} WalkedNothing(t: Nodes, pass: bool, a: Totals, quiet: bool)
    ensures Walked(t, pass, a, a, {}, quiet)
  {
  }

  lemma {:induction false} WalkedMore(t: Nodes, pass: bool, a: Totals, b: Totals, c: Totals, s: set<Path>,
                                      s': set<Path>, q: bool, q': bool)
    requires Walked(t, pass, a, b, s, q) && Walked(t, pass, b, c, s', q') && s !! s'
    ensures Walked(t, pass, a, c, s + s', q && q')
  {
    assert |s + s'| == |s| + |s'|;
    if pass {
      assert Copied(t, a, b, s, q) && Copied(t, b, c, s', q');
      assert Copied(t, a, c, s + s', q && q');
    } else {
      assert Counted(a, b, s, q) && Counted(b, c, s', q');
      assert Counted(a, c, s + s', q && q');
    }
  }

  lemma {:induction false} WalkedPart(t: Nodes, pass: bool, a: Totals, b: Totals, s: set<Path>, q: bool, all: set<Path>)
    requires Walked(t, pass, a, b, s, q) && s <= all
    ensures Walked(t, pass, a, b, all, false)
  {
    assert all == s + (all - s);
    assert |all| == |s| + |all - s|;
    if pass {
      assert Copied(t, a, b, s, q) && Copied(t, a, b, all, false);
    } else {
      assert Counted(a, b, s, q) && Counted(a, b, all, false);
    }
  }

  // ----- The licence files below a directory -----

  /** Those `left` levels below the entries of `dir`. */
  ghost function Rifs(t: Nodes, dir: Path, left: nat): set<Path> {
    set p | p in t && dir <= p && |p| == |dir| + left + 1 && IsRif(t, p)
  }

  ghost function RifsThrough(t: Nodes, dir: Path, left: nat, done: set<Name>): set<Path> {
    set p | p in Rifs(t, dir, left) && p[|dir|] in done
  }

  ghost function EntryRifs(t: Nodes, dir: Path, left: nat, e: Entry): set<Path> {
    var p := dir + [e.name];
    if left == 0 then if IsRif(t, p) then {p} else {}
    else if e.node.Dir? then Rifs(t, p, left - 1) else {}
  }

  lemma {:induction false} EntryAdds(t: Tree, dir: Path, left: nat, entries: seq<Entry>, i: nat)
    requires Lists(t, dir, entries) && i < |entries|
    ensures var before, mine := RifsThrough(t, dir, left, Done(entries, i)), EntryRifs(t, dir, left, entries[i]);
            before !! mine && RifsThrough(t, dir, left, Done(entries, i + 1)) == before + mine
  {
    var e := entries[i];
    NotYetDone(t, dir, entries, i);
    forall p ensures dir + [e.name] <= p <==> dir <= p && |dir| < |p| && p[|dir|] == e.name {
      if dir <= p && |dir| < |p| && p[|dir|] == e.name { assert p[..|dir| + 1] == dir + [e.name]; }
    }
    forall p ensures p in EntryRifs(t, dir, left, e) <==> p in Rifs(t, dir, left) && p[|dir|] == e.name {
      if p in t && dir + [e.name] <= p && p != dir + [e.name] { Ancestors(t, dir + [e.name], p); }
    }
  }

  lemma {:induction false} OneMoreEntry(t: Tree, pass: bool, a: Totals, b: Totals, c: Totals, dir: Path, left: nat,
                                        entries: seq<Entry>, i: nat, done: set<Name>, q: bool, q': bool)
    requires Lists(t, dir, entries) && i < |entries| && done == Done(entries, i)
    requires Walked(t, pass, a, b, RifsThrough(t, dir, left, done), q)
    requires Walked(t, pass, b, c, EntryRifs(t, dir, left, entries[i]), q')
    ensures Walked(t, pass, a, c, RifsThrough(t, dir, left, done + {entries[i].name}), q && q')
  {
    EntryAdds(t, dir, left, entries, i);
    WalkedMore(t, pass, a, b, c, RifsThrough(t, dir, left, Done(entries, i)), EntryRifs(t, dir, left, entries[i]), q,
               q');
  }

  /** A directory that is not one, or could not be opened. */
  lemma {:induction false} NotOpened(t: Tree, pass: bool, a: Totals, dir: Path, left: nat, quiet: bool)
    requires dir != [] && (quiet ==> Get(t, dir) != Some(Dir))
    ensures Walked(t, pass, a, a, Rifs(t, dir, left), quiet)
  {
    WalkedNothing(t, pass, a, true);
    if quiet { NoneBelow(t, dir, left); } else { WalkedPart(t, pass, a, a, {}, true, Rifs(t, dir, left)); }
  }

  lemma {:induction false} FirstEntry(t: Nodes, pass: bool, a: Totals, dir: Path, left: nat)
    ensures Walked(t, pass, a, a, RifsThrough(t, dir, left, {}), true)
  {
    assert RifsThrough(t, dir, left, {}) == {};
    WalkedNothing(t, pass, a, true);
  }

  lemma {:induction false} AllEntries(t: Tree, dir: Path, left: nat, entries: seq<Entry>)
    requires dir != [] && Lists(t, dir, entries)
    ensures RifsThrough(t, dir, left, Done(entries, |entries|)) == Rifs(t, dir, left)
  {
    forall p | p in Rifs(t, dir, left) ensures p[|dir|] in Done(entries, |entries|) {
      PathInfo.StepListed(t, dir, entries, p);
    }
  }

  /** The loop has walked all entries, or was broken off by the device. */
  lemma {:induction false} LoopEnds(t: Tree, pass: bool, a: Totals, b: Totals, dir: Path, left: nat,
                                    entries: seq<Entry>, i: nat, q: bool, q': bool)
    requires dir != [] && Lists(t, dir, entries) && i <= |entries| && (q' ==> q && i == |entries|)
    requires Walked(t, pass, a, b, RifsThrough(t, dir, left, Done(entries, i)), q)
    ensures Walked(t, pass, a, b, Rifs(t, dir, left), q')
  {
    AllEntries(t, dir, left, entries);
    if !q' { WalkedPart(t, pass, a, b, RifsThrough(t, dir, left, Done(entries, i)), q, Rifs(t, dir, left)); }
  }

  lemma {:induction false} NoneBelow(t: Tree, dir: Path, left: nat)
    requires dir != [] && Get(t, dir) != Some(Dir)
    ensures Rifs(t, dir, left) == {}
  {
    forall p | p in t && dir <= p && p != dir ensures false { Ancestors(t, dir, p); }
  }

  // ----- The walk -----

  /** One licence file, whose row was inserted or not. */
  lemma {:induction false} OneLicence(t: Nodes, a: Totals, b: Totals, p: Path, inserted: bool, quiet: bool)
    requires IsRif(t, p) && b.count == a.count
    requires var rif := Blob(t, p);
      if inserted then |rif| == RIF_SIZE && ContentId(rif) !in a.rows
          && b == a.(copied := a.copied + 1, rows := a.rows[ContentId(rif) := rif])
      else b == a && (quiet && |rif| == RIF_SIZE ==> ContentId(rif) in a.rows)
    ensures Walked(t, true, a, b, {p}, quiet)
  {
    if inserted { assert RowOf(t, p, ContentId(Blob(t, p)), Blob(t, p)); }
    assert Copied(t, a, b, {p}, quiet);
  }

  /** license_file_callback. */
  method LicenseFile(disk: Disk, data: Data, db: Database, dir: Path, file: Name)
    requires Get(disk.tree, dir + [file]).Some? && disk.tree[dir + [file]].File?
    modifies disk`faults, data`count, data`copied, db
    ensures disk.faults >= old(disk.faults)
    ensures Walked(disk.tree, data.copy_pass, old(Now(data, db)), Now(data, db),
                   if RifName(file) then {dir + [file]} else {}, disk.faults == old(disk.faults))
  {
    ghost var t, a := disk.tree, Now(data, db);
    var path := dir + [file];
    if !RifName(file) {
      WalkedNothing(t, data.copy_pass, a, true);
      return;
    }
    if data.copy_pass {
      CopyLicense(disk, data, db, path);
    } else {
      data.count := data.count + 1;
      assert Counted(a, Now(data, db), {path}, true);
    }
  }

  /** Its second pass. */
  method CopyLicense(disk: Disk, data: Data, db: Database, path: Path)
    requires IsRif(disk.tree, path)
    modifies disk`faults, data`copied, db
    ensures disk.faults >= old(disk.faults)
    ensures Walked(disk.tree, true, old(Now(data, db)), Now(data, db), {path}, disk.faults == old(disk.faults))
  {
    ghost var t, a, f0, inserted := disk.tree, Now(data, db), disk.faults, false;
    var fd := disk.OpenRead(path);
    if fd >= 0 {
      var read, rif := disk.ReadStart(path, RIF_SIZE);
      if read == RIF_SIZE {
        var rc := db.InsertRif(disk, rif);
        if rc == 0 {
          data.copied := data.copied + 1;
          inserted := true;
        }
      }
    }
    OneLicence(t, a, Now(data, db), path, inserted, disk.faults == f0);
  }

  /** One entry of the loop over files, after the entries `done` since the totals `a`. */
  method FileEntry(disk: Disk, data: Data, db: Database, path: Path, entries: seq<Entry>, i: nat,
                   ghost left: nat, ghost a: Totals, ghost done: set<Name>, ghost f0: nat)
    requires left == 0 && Lists(disk.tree, path, entries) && i < |entries| && done == Done(entries, i)
             && disk.faults >= f0
    requires Walked(disk.tree, data.copy_pass, a, Now(data, db), RifsThrough(disk.tree, path, left, done),
                    disk.faults == f0)
    modifies disk`faults, data`count, data`copied, db
    ensures disk.faults >= old(disk.faults)
    ensures Walked(disk.tree, data.copy_pass, a, Now(data, db),
                   RifsThrough(disk.tree, path, left, done + {entries[i].name}), disk.faults == f0)
  {
    ghost var t, b, f1 := disk.tree, Now(data, db), disk.faults;
    NotYetDone(t, path, entries, i);
    var e := entries[i];
    assert (path + [e.name])[|path|] == e.name;
    if e.node.File? {
      LicenseFile(disk, data, db, path, e.name);
    } else {
      WalkedNothing(t, data.copy_pass, b, true);
    }
    OneMoreEntry(t, data.copy_pass, a, b, Now(data, db), path, left, entries, i, done, f1 == f0, disk.faults == f1);
  }

  /** parse_dir_with_callback for the files of a directory. */
  method ParseFiles(disk: Disk, data: Data, db: Database, path: Path, ghost left: nat)
    requires path != [] && left == 0
    modifies disk`faults, data`count, data`copied, db
    ensures disk.faults >= old(disk.faults)
    ensures Walked(disk.tree, data.copy_pass, old(Now(data, db)), Now(data, db),
                   Rifs(disk.tree, path, left), disk.faults == old(disk.faults))
  {
    ghost var t, a, f0, pass := disk.tree, Now(data, db), disk.faults, data.copy_pass;
    var isDir, entries := disk.Dopen(path);
    if !isDir {
      NotOpened(t, pass, a, path, left, disk.faults == f0);
      return;
    }
    FirstEntry(t, pass, a, path, left);
    var i := 0;
    ghost var f, done := f0, {};
    while i < |entries|
      invariant i <= |entries| && disk.faults == f >= f0 && done == Done(entries, i)
      invariant Walked(t, pass, a, Now(data, db), RifsThrough(t, path, left, done), f == f0)
    {
      var failed := disk.DreadFails();
      if failed { break; }
      FileEntry(disk, data, db, path, entries, i, left, a, done, f0);
      f, done := disk.faults, done + {entries[i].name};
      i := i + 1;
    }
    LoopEnds(t, pass, a, Now(data, db), path, left, entries, i, f == f0, disk.faults == f0);
  }

  /** license_dir_callback: one level down, and the depth restored. */
  method LicenseDir(disk: Disk, data: Data, db: Database, dir: Path, subdir: Name, ghost left: nat)
    requires left == data.max_depth - data.cur_depth > 0 && data.deepest <= data.max_depth
    modifies disk`faults, data`count, data`copied, data`cur_depth, data`deepest, db
    ensures disk.faults >= old(disk.faults)
    ensures data.cur_depth == old(data.cur_depth) && data.deepest <= data.max_depth
    ensures Walked(disk.tree, data.copy_pass, old(Now(data, db)), Now(data, db),
                   Rifs(disk.tree, dir + [subdir], left - 1), disk.faults == old(disk.faults))
    decreases left, 0
  {
    var path := dir + [subdir];
    data.cur_depth := data.cur_depth + 1;
    data.deepest := if data.deepest < data.cur_depth then data.cur_depth else data.deepest;
    if data.cur_depth == data.max_depth {
      ParseFiles(disk, data, db, path, left - 1);
    } else {
      ParseDirs(disk, data, db, path, left - 1);
    }
    data.cur_depth := data.cur_depth - 1;
  }

  /** One entry of the loop over directories. */
  method DirEntry(disk: Disk, data: Data, db: Database, path: Path, entries: seq<Entry>, i: nat,
                  ghost left: nat, ghost a: Totals, ghost done: set<Name>, ghost f0: nat)
    requires left == data.max_depth - data.cur_depth > 0 && data.deepest <= data.max_depth
    requires Lists(disk.tree, path, entries) && i < |entries| && done == Done(entries, i) && disk.faults >= f0
    requires Walked(disk.tree, data.copy_pass, a, Now(data, db), RifsThrough(disk.tree, path, left, done),
                    disk.faults == f0)
    modifies disk`faults, data`count, data`copied, data`cur_depth, data`deepest, db
    ensures disk.faults >= old(disk.faults)
    ensures data.cur_depth == old(data.cur_depth) && data.deepest <= data.max_depth
    ensures Walked(disk.tree, data.copy_pass, a, Now(data, db),
                   RifsThrough(disk.tree, path, left, done + {entries[i].name}), disk.faults == f0)
    decreases left, 1
  {
    ghost var t, b, f1 := disk.tree, Now(data, db), disk.faults;
    if entries[i].node.Dir? {
      LicenseDir(disk, data, db, path, entries[i].name, left);
    } else {
      WalkedNothing(t, data.copy_pass, b, true);
    }
    OneMoreEntry(t, data.copy_pass, a, b, Now(data, db), path, left, entries, i, done, f1 == f0, disk.faults == f1);
  }

  /** parse_dir_with_callback for the directories in a directory. */
  method ParseDirs(disk: Disk, data: Data, db: Database, path: Path, ghost left: nat)
    requires path != []
    requires left == data.max_depth - data.cur_depth > 0 && data.deepest <= data.max_depth
    modifies disk`faults, data`count, data`copied, data`cur_depth, data`deepest, db
    ensures disk.faults >= old(disk.faults)
    ensures data.cur_depth == old(data.cur_depth) && data.deepest <= data.max_depth
    ensures Walked(disk.tree, data.copy_pass, old(Now(data, db)), Now(data, db),
                   Rifs(disk.tree, path, left), disk.faults == old(disk.faults))
    decreases left, 2
  {
    ghost var t, a, f0, pass, depth := disk.tree, Now(data, db), disk.faults, data.copy_pass, data.cur_depth;
    var isDir, entries := disk.Dopen(path);
    if !isDir {
      NotOpened(t, pass, a, path, left, disk.faults == f0);
      return;
    }
    FirstEntry(t, pass, a, path, left);
    var i := 0;
    ghost var f, done := f0, {};
    while i < |entries|
      invariant i <= |entries| && disk.faults == f >= f0 && done == Done(entries, i)
      invariant data.cur_depth == depth && data.deepest <= data.max_depth
      invariant Walked(t, pass, a, Now(data, db), RifsThrough(t, path, left, done), f == f0)
    {
      var failed := disk.DreadFails();
      if failed { break; }
      DirEntry(disk, data, db, path, entries, i, left, a, done, f0);
      f, done := disk.faults, done + {entries[i].name};
      i := i + 1;
    }
    LoopEnds(t, pass, a, Now(data, db), path, left, entries, i, f == f0, disk.faults == f0);
  }

  /** Both trees in one pass. */
  method WalkBoth(disk: Disk, data: Data, db: Database, app: Path, addcont: Path)
    requires app != [] && addcont != [] && FileTree.Apart(app, addcont)
    requires data.cur_depth == 0 && data.max_depth == 1 && data.deepest <= 1
    modifies disk`faults, data`count, data`copied, data`cur_depth, data`max_depth, data`deepest, db
    ensures disk.faults >= old(disk.faults)
    ensures data.cur_depth == 0
    ensures Walked(disk.tree, data.copy_pass, old(Now(data, db)), Now(data, db),
                   Rifs(disk.tree, app, 1) + Rifs(disk.tree, addcont, 2), disk.faults == old(disk.faults))
  {
    ghost var t, f0, a := disk.tree, disk.faults, Now(data, db);
    ParseDirs(disk, data, db, app, 1);
    ghost var b, f1 := Now(data, db), disk.faults;
    data.max_depth := data.max_depth + 1;
    ParseDirs(disk, data, db, addcont, 2);
    Both(t, data.copy_pass, a, b, Now(data, db), app, addcont, f1 == f0, disk.faults == f1);
  }

  /** license_thread, past its allocation and the creation of the database: both trees are counted,
      then both copied. */
  method LicenseThread(disk: Disk, db: Database, app: Path, addcont: Path)
      returns (nbrRefreshItem: nat, ghost copied: nat)
    requires app != [] && addcont != [] && FileTree.Apart(app, addcont)
    modifies disk`faults, db
    ensures disk.faults >= old(disk.faults)
    ensures var all := Rifs(disk.tree, app, 1) + Rifs(disk.tree, addcont, 2);
            var quiet := disk.faults == old(disk.faults);
      && nbrRefreshItem <= |all| && (quiet ==> nbrRefreshItem == |all|)
      && Copied(disk.tree, Totals(0, 0, old(db.rows)), Totals(0, copied, db.rows), all, quiet)
  {
    ghost var t, f0, all := disk.tree, disk.faults, Rifs(disk.tree, app, 1) + Rifs(disk.tree, addcont, 2);
    var data := new Data();
    ghost var z := Now(data, db);
    WalkBoth(disk, data, db, app, addcont);
    ghost var b, f1 := Now(data, db), disk.faults;
    data.copy_pass := true;
    data.max_depth := 1;
    data.deepest := 0;
    WalkBoth(disk, data, db, app, addcont);
    Finished(t, z, b, Now(data, db), all, f1 == f0, disk.faults == f1);
    nbrRefreshItem, copied := data.count, data.copied;
  }

  lemma {:induction false} Both(t: Tree, pass: bool, a: Totals, b: Totals, c: Totals, app: Path, addcont: Path,
                                q: bool, q': bool)
    requires FileTree.Apart(app, addcont)
    requires Walked(t, pass, a, b, Rifs(t, app, 1), q) && Walked(t, pass, b, c, Rifs(t, addcont, 2), q')
    ensures Walked(t, pass, a, c, Rifs(t, app, 1) + Rifs(t, addcont, 2), q && q')
  {
    forall p | p in Rifs(t, app, 1) ensures p !in Rifs(t, addcont, 2) { PrefixesOfOne(app, addcont, p); }
    WalkedMore(t, pass, a, b, c, Rifs(t, app, 1), Rifs(t, addcont, 2), q, q');
  }

  lemma {:induction false} Finished(t: Tree, z: Totals, b: Totals, d: Totals, all: set<Path>, q: bool, q': bool)
    requires z.count == 0 && z.copied == 0
    requires Walked(t, false, z, b, all, q) && Walked(t, true, b, d, all, q')
    ensures d.count <= |all| && (q ==> d.count == |all|)
    ensures Copied(t, Totals(0, 0, z.rows), Totals(0, d.copied, d.rows), all, q && q')
  {
    assert Counted(z, b, all, q) && Copied(t, b, d, all, q');
  }
}
