/** getPathInfo of src/file.c, and the totals that the three recursions of that file share. */
module PathInfo {
  import opened Common
  import opened PathText
  import opened FileTree
  import opened Storage

  const DIRECTORY_SIZE := 4 * 1024

  /** The sum of a weight over the nodes `s` of a tree. */
  ghost function Total(t: Nodes, s: set<Path>, weight: Node -> nat): nat
    requires s <= t.Keys
  {
    if s == {} then 0 else var p :| p in s; weight(t[p]) + Total(t, s - {p}, weight)
  }

  function IsFolder(node: Node): nat { if node.Dir? then 1 else 0 }
  function IsFile(node: Node): nat { if node.File? then 1 else 0 }
  function Size(node: Node): nat { if node.File? then |node.data| else 0 }
  function CopyCost(node: Node): nat { if node.File? then |node.data| else DIRECTORY_SIZE }

  lemma {:induction false} TotalWithout(t: Nodes, s: set<Path>, weight: Node -> nat, p: Path)
    requires s <= t.Keys && p in s
    ensures Total(t, s, weight) == weight(t[p]) + Total(t, s - {p}, weight)
    decreases s
  {
    var q :| q in s && Total(t, s, weight) == weight(t[q]) + Total(t, s - {q}, weight);
    if p != q {
      TotalWithout(t, s - {q}, weight, p);
      TotalWithout(t, s - {p}, weight, q);
      assert s - {q} - {p} == s - {p} - {q};
    }
  }

  lemma {:induction false} TotalSum(t: Nodes, a: set<Path>, b: set<Path>, weight: Node -> nat)
    requires a <= t.Keys && b <= t.Keys && a !! b
    ensures Total(t, a + b, weight) == Total(t, a, weight) + Total(t, b, weight)
    decreases a
  {
    if a == {} {
      assert a + b == b;
    } else {
      var p :| p in a;
      TotalWithout(t, a, weight, p);
      TotalWithout(t, a + b, weight, p);
      assert a + b - {p} == (a - {p}) + b;
      TotalSum(t, a - {p}, b, weight);
    }
  }

  lemma {:induction false} TotalAtMost(t: Nodes, a: set<Path>, b: set<Path>, weight: Node -> nat)
    requires a <= b <= t.Keys
    ensures Total(t, a, weight) <= Total(t, b, weight)
  {
    TotalSum(t, a, b - a, weight);
    assert a + (b - a) == b;
  }

  /** The counters of the three recursions agree: copying costs the size plus a directory's size
      for every folder, removing costs one for every folder and every file. */
  lemma {:induction false} CountersAgree(t: Nodes, s: set<Path>)
    requires s <= t.Keys
    ensures Total(t, s, CopyCost) == Total(t, s, Size) + DIRECTORY_SIZE * Total(t, s, IsFolder)
    ensures |s| == Total(t, s, IsFolder) + Total(t, s, IsFile)
    decreases s
  {
    if s != {} {
      var p :| p in s;
      CountersAgree(t, s - {p});
      OneNode(t[p]);
      TotalWithout(t, s, CopyCost, p);
      TotalWithout(t, s, Size, p);
      TotalWithout(t, s, IsFolder, p);
      TotalWithout(t, s, IsFile, p);
    }
  }

  lemma {:induction false} OneNode(node: Node)
    ensures CopyCost(node) == Size(node) + DIRECTORY_SIZE * IsFolder(node)
    ensures IsFolder(node) + IsFile(node) == 1
  {
  }

  // ----- What is counted -----

  /** No path on the way from `base`, exclusive, to `p`, inclusive, is skipped by the handler. */
  ghost predicate Visited(base: Path, skip: Path -> bool, p: Path) {
    base <= p && forall k :: |base| < k <= |p| ==> !skip(p[..k])
  }

  /** The nodes that a call on `path` reports. A plain file is itself shown to the handler. */
  ghost function Counted(t: Nodes, path: Path, skip: Path -> bool): set<Path> {
    if path in t && t[path].File? && skip(path) then {} else set p | p in t && Visited(path, skip, p)
  }

  /** No handler at all. */
  function NoSkip(p: Path): bool { false }

  lemma {:induction false} CountsEverything(t: Nodes, path: Path)
    ensures Counted(t, path, NoSkip) == Below(t, path)
  {
  }

  ghost function CountedThrough(t: Nodes, path: Path, skip: Path -> bool, done: set<Name>): set<Path> {
    set p | p in t && Visited(path, skip, p) && |path| < |p| && p[|path|] in done
  }

  lemma {:induction false} EntryCounted(t: Tree, path: Path, skip: Path -> bool, done: set<Name>, n: Name)
    requires n !in done && path + [n] in t
    ensures var before, after := CountedThrough(t, path, skip, done), CountedThrough(t, path, skip, done + {n});
            var entry := if skip(path + [n]) then {} else Counted(t, path + [n], skip);
            before !! entry && after == before + entry
  {
    var entry := if skip(path + [n]) then {} else Counted(t, path + [n], skip);
    forall p ensures path + [n] <= p <==> path <= p && |path| < |p| && p[|path|] == n {
      if path <= p && |path| < |p| && p[|path|] == n { assert p[..|path| + 1] == path + [n]; }
    }
    forall p | path + [n] <= p ensures Visited(path, skip, p) <==> !skip(path + [n]) && Visited(path + [n], skip, p) {
      assert p[..|path| + 1] == path + [n];
    }
    forall p ensures p in CountedThrough(t, path, skip, done + {n}) <==>
        p in CountedThrough(t, path, skip, done) + entry { }
  }

  lemma {:induction false} StepListed(t: Tree, path: Path, entries: seq<Entry>, p: Path)
    requires path != [] && Lists(t, path, entries)
    requires p in t && path <= p && p != path
    ensures |path| < |p| && p[|path|] in Done(entries, |entries|)
  {
    assert path == p[..|path|];
    var n := p[|path|];
    assert path + [n] == p[..|path| + 1];
    Ancestors(t, path + [n], p);
  }

  lemma {:induction false} DirCounted(t: Tree, path: Path, skip: Path -> bool, entries: seq<Entry>)
    requires path != [] && Get(t, path) == Some(Dir) && Lists(t, path, entries)
    ensures Counted(t, path, skip) == CountedThrough(t, path, skip, Done(entries, |entries|)) + {path}
    ensures path !in CountedThrough(t, path, skip, Done(entries, |entries|))
  {
    var all, through := Counted(t, path, skip), CountedThrough(t, path, skip, Done(entries, |entries|));
    assert path in all;
    forall p | p in all && p != path ensures p in through { StepListed(t, path, entries, p); }
    assert all == through + {path};
  }

  /** The counters that the caller passes in. */
  datatype Counts = Counts(size: nat, folders: nat, files: nat)

  class Info {
    var size: nat
    var folders: nat
    var files: nat

    constructor ()
      ensures Read() == Counts(0, 0, 0)
    {
      size, folders, files := 0, 0, 0;
    }

    ghost function Read(): Counts
      reads this
    {
      Counts(size, folders, files)
    }
  }

  /** The counters once the nodes `s` have been added. */
  ghost function Plus(c: Counts, t: Nodes, s: set<Path>): Counts
    requires s <= t.Keys
  {
    Counts(c.size + Total(t, s, Size), c.folders + Total(t, s, IsFolder), c.files + Total(t, s, IsFile))
  }

  lemma {:induction false} PlusSum(c: Counts, t: Nodes, a: set<Path>, b: set<Path>)
    requires a <= t.Keys && b <= t.Keys && a !! b
    ensures Plus(Plus(c, t, a), t, b) == Plus(c, t, a + b)
  {
    TotalSum(t, a, b, Size);
    TotalSum(t, a, b, IsFolder);
    TotalSum(t, a, b, IsFile);
  }

  lemma {:induction false} PlusOne(c: Counts, t: Nodes, p: Path)
    requires p in t
    ensures Plus(c, t, {p}) == Counts(c.size + Size(t[p]), c.folders + IsFolder(t[p]), c.files + IsFile(t[p]))
  {
    assert {p} - {p} == {};
    TotalWithout(t, {p}, Size, p);
    TotalWithout(t, {p}, IsFolder, p);
    TotalWithout(t, {p}, IsFile, p);
  }

  /** The counters after the entries `done`, having been `c0` before. */
  ghost function Tally(c0: Counts, t: Nodes, path: Path, skip: Path -> bool, done: set<Name>): Counts {
    Plus(c0, t, CountedThrough(t, path, skip, done))
  }

  /** Over the one value of `u`, so that the loop does not unfold the totals. */
  ghost predicate Tallied(c: Counts, c0: Counts, t: Nodes, path: Path, skip: Path -> bool, done: set<Name>) {
    forall u {:trigger Tally(c0, t, path, skip, u)} :: u == done ==> c == Tally(c0, t, path, skip, u)
  }

  ghost function EntryTally(c: Counts, t: Nodes, path: Path, skip: Path -> bool, entry: Entry): Counts {
    var child := path + [entry.name];
    if skip(child) then c
    else if entry.node.Dir? then Plus(c, t, Counted(t, child, skip))
    else Counts(c.size + |entry.node.data|, c.folders, c.files + 1)
  }

  lemma {:induction false} TallyStep(c0: Counts, c1: Counts, c2: Counts, t: Tree, path: Path, skip: Path -> bool,
                  entries: seq<Entry>, i: nat)
    requires Lists(t, path, entries) && i < |entries|
    requires Tallied(c1, c0, t, path, skip, Done(entries, i))
    requires c2 == EntryTally(c1, t, path, skip, entries[i])
    ensures Tallied(c2, c0, t, path, skip, Done(entries, i) + {entries[i].name})
  {
    assert c1 == Tally(c0, t, path, skip, Done(entries, i));
    var child, node := path + [entries[i].name], entries[i].node;
    EntryBelow(t, path, entries, i, skip);
    if !skip(child) {
      if node.File? {
        FileCounted(t, child, skip);
        PlusOne(c1, t, child);
      }
      PlusSum(c0, t, CountedThrough(t, path, skip, Done(entries, i)), Counted(t, child, skip));
    }
  }

  /** One entry of the directory loop; `c0` are the counters before the first one. */
  method CountEntry(disk: Disk, path: Path, entries: seq<Entry>, i: nat, info: Info, skip: Path -> bool,
                    ghost f0: nat, ghost c0: Counts, ghost done: set<Name>) returns (ret: int)
    requires path != [] && Lists(disk.tree, path, entries) && i < |entries| && disk.faults >= f0
    requires done == Done(entries, i)
    requires disk.faults == f0 ==> Tallied(info.Read(), c0, disk.tree, path, skip, done)
    modifies disk`faults, info
    ensures disk.faults >= f0 && ret <= 1
    ensures disk.faults == f0 ==>
              ret == 1 && Tallied(info.Read(), c0, disk.tree, path, skip, done + {entries[i].name})
    decreases Height(disk.tree, path), 0
  {
    ghost var c1 := info.Read();
    var n, node := entries[i].name, entries[i].node;
    NotYetDone(disk.tree, path, entries, i);
    ret := 1;
    if !skip(path + [n]) {
      if node.Dir? {
        EntryLower(disk.tree, path, n);
        ret := GetPathInfo(disk, path + [n], info, skip);
      } else {
        info.size := info.size + |node.data|;
        info.files := info.files + 1;
      }
    }
    if disk.faults == f0 { TallyStep(c0, c1, info.Read(), disk.tree, path, skip, entries, i); }
  }

  /** The directory loop of getPathInfo. */
  method CountEntries(disk: Disk, path: Path, entries: seq<Entry>, info: Info, skip: Path -> bool) returns (ret: int)
    requires path != [] && Lists(disk.tree, path, entries)
    modifies disk`faults, info
    ensures disk.faults >= old(disk.faults) && ret <= 1
    ensures disk.faults == old(disk.faults) ==>
              ret == 1 && Tallied(info.Read(), old(info.Read()), disk.tree, path, skip, Done(entries, |entries|))
    decreases Height(disk.tree, path), 1
  {
    ghost var t, f0, c0 := disk.tree, disk.faults, info.Read();
    TallyStarts(c0, t, path, skip);
    var i := 0;
    ghost var done := {};
    while i < |entries|
      invariant i <= |entries| && disk.faults >= f0 && done == Done(entries, i)
      invariant disk.faults == f0 ==> Tallied(info.Read(), c0, t, path, skip, done)
    {
      var failed := disk.DreadFails();
      if failed { return 1; }
      ret := CountEntry(disk, path, entries, i, info, skip, f0, c0, done);
      if ret <= 0 { return; }
      done := done + {entries[i].name};
      i := i + 1;
    }
    return 1;
  }

  lemma {:induction false} TallyStarts(c: Counts, t: Nodes, path: Path, skip: Path -> bool)
    ensures Tallied(c, c, t, path, skip, {})
  {
    assert CountedThrough(t, path, skip, {}) == {};
  }

  lemma {:induction false} FileCounted(t: Tree, path: Path, skip: Path -> bool)
    requires path in t && t[path].File?
    ensures Counted(t, path, skip) == if skip(path) then {} else {path}
  {
    assert ParentIsDir(t, path);
    forall p | p in t && path <= p ensures p == path { Ancestors(t, path, p); }
  }

  lemma {:induction false} EntryBelow(t: Tree, path: Path, entries: seq<Entry>, i: nat, skip: Path -> bool)
    requires Lists(t, path, entries) && i < |entries|
    ensures var n := entries[i].name;
            var entry := if skip(path + [n]) then {} else Counted(t, path + [n], skip);
            var before, after := CountedThrough(t, path, skip, Done(entries, i)),
                CountedThrough(t, path, skip, Done(entries, i + 1));
            && Get(t, path + [n]) == Some(entries[i].node)
            && before !! entry && after == before + entry && (skip(path + [n]) ==> after == before)
  {
    var n := entries[i].name;
    NotYetDone(t, path, entries, i);
    EntryCounted(t, path, skip, Done(entries, i), n);
  }

  method GetPathInfo(disk: Disk, path: Path, info: Info, skip: Path -> bool) returns (ret: int)
    requires path != []
    modifies disk`faults, info
    ensures disk.faults >= old(disk.faults) && ret <= 1
    ensures disk.faults == old(disk.faults) && path in disk.tree ==>
              && ret == 1
              && info.Read() == Plus(old(info.Read()), disk.tree, Counted(disk.tree, path, skip))
    ensures disk.faults == old(disk.faults) && path !in disk.tree ==>
              && (ret == 1 <==> skip(path))
              && info.Read() == old(info.Read())
    decreases Height(disk.tree, path), 2
  {
    ghost var t := disk.tree;
    var isDir, entries := disk.Dopen(path);
    if isDir {
      ret := CountEntries(disk, path, entries, info, skip);
      if ret <= 0 { return; }
      assert disk.faults == old(disk.faults) ==>
             info.Read() == Tally(old(info.Read()), t, path, skip, Done(entries, |entries|));
      DirCounted(t, path, skip, entries);
      PlusOne(info.Read(), t, path);
      PlusSum(old(info.Read()), t, CountedThrough(t, path, skip, Done(entries, |entries|)), {path});
      info.folders := info.folders + 1;
    } else {
      if skip(path) { return 1; }
      var res, node := disk.Getstat(path);
      if res < 0 { return res; }
      if node.File? {
        FileCounted(t, path, skip);
        PlusOne(info.Read(), t, path);
      }
      info.size := info.size + Size(node);
      info.files := info.files + 1;
    }
    return 1;
  }
}
