/** removePath of src/file.c: depth-first removal with a progress counter and cancellation. */
module RemovePath {
  import opened Common
  import opened PathText
  import opened FileTree
  import opened Storage
  import opened Params
  import opened PathInfo

  /** `p` lies at or below one of the entries `done` of directory `path`. */
  ghost predicate Through(path: Path, done: set<Name>, p: Path) {
    |path| < |p| && path <= p && p[|path|] in done
  }

  /** `t` is `t0` without the entries `done`. */
  ghost predicate Without(t0: Nodes, t: Nodes, path: Path, done: set<Name>) {
    forall p :: Get(t, p) == if Through(path, done, p) then None else Get(t0, p)
  }

  /** `t` is `t0` less some paths at or below `path`. */
  ghost predicate RemovedBelow(t0: Nodes, t: Nodes, path: Path) {
    forall p :: Get(t, p) == Get(t0, p) || (path <= p && Get(t, p) == None)
  }

  /** If no removal had failed before: the call fails exactly if one fails in it, and tries none after that. */
  twostate predicate Halts(disk: Disk, ret: int)
    reads disk
  {
    !old(disk.failed) ==> (ret < 0 <==> disk.failed) && disk.late == old(disk.late)
  }

  /** One entry of the directory loop, after the entries `done`. */
  method RemoveEntry(disk: Disk, path: Path, entry: Entry, param: Progress?, ghost t0: Tree, ghost done: set<Name>)
    returns (ret: int)
    requires path != [] && Get(t0, path + [entry.name]) == Some(entry.node)
    requires entry.name !in done && Without(t0, disk.tree, path, done)
    modifies disk, param
    ensures disk.faults >= old(disk.faults)
    ensures disk.faults == old(disk.faults) ==> disk.refused == old(disk.refused)
    ensures RemovedBelow(t0, disk.tree, path) && Get(disk.tree, path) == Get(t0, path)
    ensures param != null ==> param.value - old(param.value) == |old(disk.tree)| - |disk.tree|
    ensures ret == 1 ==> Without(t0, disk.tree, path, done + {entry.name})
    ensures (ret == 0 ==> param != null && param.cancelled) && Stops(param, ret) && Halts(disk, ret)
    ensures ret < 0 ==> disk.faults > old(disk.faults)
    ensures ret <= 1
    decreases Height(t0, path), 0
  {
    ghost var t1 := disk.tree;
    var n := entry.name;
    EntryShrinks(t0, t1, path, done, n, entry.node);
    if entry.node.Dir? {
      ret := RemovePath(disk, path + [n], param);
      EntryRemoved(t0, t1, disk.tree, path, done, n);
    } else {
      ret := disk.Remove(path + [n]);
      if ret < 0 {
        DirKept(t0, t1, path, done);
        return;
      }
      FileRemoved(t1, disk.tree, path + [n]);
      EntryRemoved(t0, t1, disk.tree, path, done, n);
      var cancel := Advance(param, 1);
      return if cancel then 0 else 1;
    }
  }

  /** The directory loop: it ends with ret == 1 after the last entry, or when listing fails. */
  method RemoveEntries(disk: Disk, path: Path, entries: seq<Entry>, param: Progress?) returns (ret: int)
    requires path != [] && path in disk.tree && Lists(disk.tree, path, entries)
    modifies disk, param
    ensures disk.faults >= old(disk.faults)
    ensures disk.faults == old(disk.faults) ==> disk.refused == old(disk.refused)
    ensures RemovedBelow(old(disk.tree), disk.tree, path)
    ensures Get(disk.tree, path) == Get(old(disk.tree), path)
    ensures param != null ==> param.value - old(param.value) == |old(disk.tree)| - |disk.tree|
    ensures ret == 1 && disk.faults == old(disk.faults) ==> Below(disk.tree, path) == {path}
    ensures (ret == 0 ==> param != null && param.cancelled) && Stops(param, ret) && Halts(disk, ret)
    ensures ret < 0 ==> disk.faults > old(disk.faults)
    ensures ret <= 1
    decreases Height(disk.tree, path), 1
  {
    ghost var t0, f0, refused0 := disk.tree, disk.faults, disk.refused;
    var i := 0;
    ghost var done := {};
    while i < |entries|
      invariant i <= |entries| && done == Done(entries, i)
      invariant disk.faults >= f0 && (disk.faults == f0 ==> disk.refused == refused0)
      invariant Without(t0, disk.tree, path, done)
      invariant (param != null ==> param.value - old(param.value) == |t0| - |disk.tree|) && Stops(param, 1)
      invariant Halts(disk, 1)
    {
      var failed := disk.DreadFails();
      if failed {
        DirKept(t0, disk.tree, path, done);
        return 1;
      }
      NotYetDone(t0, path, entries, i);
      ret := RemoveEntry(disk, path, entries[i], param, t0, done);
      if ret <= 0 { return; }
      done := done + {entries[i].name};
      i := i + 1;
    }
    AllRemoved(t0, disk.tree, path, entries, i);
    return 1;
  }

  method RemovePath(disk: Disk, path: Path, param: Progress?) returns (ret: int)
    requires path != []
    modifies disk, param
    ensures disk.faults >= old(disk.faults)
    ensures disk.faults == old(disk.faults) ==> disk.refused == old(disk.refused)
    ensures RemovedBelow(old(disk.tree), disk.tree, path)
    ensures param != null ==> param.value - old(param.value) == |old(disk.tree)| - |disk.tree|
    ensures ret == 1 ==> Below(disk.tree, path) == {} && path in old(disk.tree)
    ensures (ret == 0 ==> param != null && param.cancelled) && Stops(param, ret) && Halts(disk, ret)
    ensures ret < 0 ==> disk.faults > old(disk.faults) || path !in old(disk.tree)
    ensures ret <= 1
    decreases Height(disk.tree, path), 2
  {
    ghost var t0 := disk.tree;
    var isDir, entries := disk.Dopen(path);
    if isDir {
      ret := RemoveEntries(disk, path, entries, param);
      if ret <= 0 { return; }
      ghost var t1 := disk.tree;
      ret := disk.Rmdir(path);
      if ret < 0 { return; }
      DirRemoved(t0, t1, path);
    } else {
      ret := disk.Remove(path);
      if ret < 0 { return; }
      FileRemoved(t0, disk.tree, path);
    }
    var cancel := Advance(param, 1);
    return if cancel then 0 else 1;
  }

  lemma {:induction false} FileRemoved(t: Tree, t': Tree, path: Path)
    requires path in t && t[path].File? && t' == t - {path}
    ensures Below(t', path) == {} && RemovedBelow(t, t', path)
  {
    assert ParentIsDir(t, path);
    forall p | p in t && path <= p ensures p == path { Ancestors(t, path, p); }
  }

  lemma {:induction false} DirKept(t0: Nodes, t: Nodes, path: Path, done: set<Name>)
    requires Without(t0, t, path, done)
    ensures Get(t, path) == Get(t0, path) && RemovedBelow(t0, t, path)
  {
  }

  lemma {:induction false} DirRemoved(t0: Nodes, t: Nodes, path: Path)
    requires RemovedBelow(t0, t, path) && Below(t, path) == {path}
    ensures RemovedBelow(t0, t - {path}, path)
    ensures Below(t - {path}, path) == {}
  {
    assert forall p :: p in Below(t - {path}, path) ==> p in Below(t, path);
  }

  lemma {:induction false} EntryShrinks(t0: Tree, t: Tree, path: Path, done: set<Name>, n: Name, node: Node)
    requires Without(t0, t, path, done) && n !in done && Get(t0, path + [n]) == Some(node)
    ensures Get(t, path + [n]) == Some(node)
    ensures Height(t, path + [n]) < Height(t0, path)
  {
    assert !Through(path, done, path + [n]);
    HeightBound(t0, path, path + [n]);
    forall p | p in t && path <= p ensures |p| <= |path| + Height(t0, path) {
      assert Get(t, p) == Get(t0, p);
      HeightBound(t0, path, p);
    }
    HeightShrinks(t, path, n, Height(t0, path));
  }

  lemma {:induction false} EntryRemoved(t0: Tree, t1: Tree, t2: Tree, path: Path, done: set<Name>, n: Name)
    requires Without(t0, t1, path, done) && RemovedBelow(t1, t2, path + [n])
    ensures RemovedBelow(t0, t2, path) && Get(t2, path) == Get(t0, path)
    ensures Below(t2, path + [n]) == {} ==> Without(t0, t2, path, done + {n})
  {
    forall p ensures (path + [n] <= p) == (|path| < |p| && path <= p && p[|path|] == n) {
      if |path| < |p| && path <= p && p[|path|] == n { assert p[..|path| + 1] == path + [n]; }
    }
    if Below(t2, path + [n]) == {} {
      forall p ensures Get(t2, p) == if Through(path, done + {n}, p) then None else Get(t0, p) {
        assert p in t2 && path + [n] <= p ==> p in Below(t2, path + [n]);
      }
    }
  }

  lemma {:induction false} AllRemoved(t0: Tree, t: Tree, path: Path, entries: seq<Entry>, i: nat)
    requires path != [] && path in t0 && Lists(t0, path, entries) && i == |entries|
    requires Without(t0, t, path, Done(entries, i))
    ensures Below(t, path) == {path}
    ensures RemovedBelow(t0, t, path) && Get(t, path) == Get(t0, path)
  {
    assert Get(t, path) == Get(t0, path);
    forall p | p in t0 && path <= p && p != path ensures Through(path, Done(entries, |entries|), p) {
      var n := p[|path|];
      assert path + [n] == p[..|path| + 1];
      Ancestors(t0, path + [n], p);
    }
    forall p | p in t && path <= p ensures p == path {
      assert Get(t, p) == Get(t0, p);
    }
  }

  /** A completed removal advances the counter by the folders and files that getPathInfo reports. */
  lemma {:induction false} RemoveCostAgrees(t: Tree, t': Tree, path: Path)
    requires RemovedBelow(t, t', path) && Below(t', path) == {}
    ensures var info := Plus(Counts(0, 0, 0), t, Counted(t, path, NoSkip));
            |t| - |t'| == info.folders + info.files
  {
    CountsEverything(t, path);
    CountersAgree(t, Below(t, path));
    forall p ensures p in t <==> p in t'.Keys + Below(t, path) {
      assert Get(t', p) == Get(t, p) || (path <= p && Get(t', p) == None);
      assert p in t' && path <= p ==> p in Below(t', path);
    }
    assert t.Keys == t'.Keys + Below(t, path);
    assert t'.Keys !! Below(t, path) by {
      assert forall p :: p in t' && p in Below(t, path) ==> p in Below(t', path);
    }
  }
}
