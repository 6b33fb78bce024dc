/** The file-system calls that src/file.c makes, over one mutable tree. Any call may also fail
    for a reason of the device's own: such a failure is counted in `faults`. */
module Storage {
  import opened Common
  import opened PathText
  import opened FileTree

  const EEXIST := Signed(0x80010011)
  /** The device's own failures, and the refusals that no caller tells apart. */
  const EIO := Signed(0x80010005)
  const ENOENT := Signed(0x80010002)
  const EISDIR := Signed(0x80010015)
  const ENOTEMPTY := Signed(0x8001005A)

  /** A directory entry with the stat that comes with it. */
  datatype Entry = Entry(name: Name, node: Node)

  /** `entries` is the listing of directory `path`, in some order, each entry once. */
  ghost predicate Lists(t: Nodes, path: Path, entries: seq<Entry>) {
    && (forall i :: 0 <= i < |entries| ==> Get(t, path + [entries[i].name]) == Some(entries[i].node))
    && (forall i, j :: 0 <= i < j < |entries| ==> entries[i].name != entries[j].name)
    && (forall n: Name :: path + [n] in t ==> n in Done(entries, |entries|))
  }

  /** The names of the first `i` entries. */
  ghost function Done(entries: seq<Entry>, i: nat): set<Name>
    requires i <= |entries|
  {
    if i == 0 then {} else Done(entries, i - 1) + {entries[i - 1].name}
  }

  lemma {:induction false} Listed(entries: seq<Entry>, i: nat, n: Name)
    requires i <= |entries|
    ensures n in Done(entries, i) <==> exists k :: 0 <= k < i && entries[k].name == n
  {
    if i > 0 { Listed(entries, i - 1, n); }
  }

  lemma {:induction false} NotYetDone(t: Nodes, path: Path, entries: seq<Entry>, i: nat)
    requires Lists(t, path, entries) && i < |entries|
    ensures entries[i].name !in Done(entries, i)
    ensures Get(t, path + [entries[i].name]) == Some(entries[i].node)
  {
    Listed(entries, i, entries[i].name);
  }

  /** How a loop over `n` entries is left after `i`, the last of which returned `ret`: at the first that does
      not succeed, at the end, or because the device broke off the listing. */
  predicate LoopLeft(n: nat, i: nat, ret: int, f1: bool, faulty: bool) {
    if ret <= 0 then faulty == f1 else faulty || (i == n && !f1)
  }

  // ----- Any order is a listing -----

  lemma {:induction false} SomeOrder(t: Tree, path: Path, names: set<Name>) returns (entries: seq<Entry>)
    requires forall n :: n in names ==> path + [n] in t
    ensures forall i :: 0 <= i < |entries| ==>
              entries[i].name in names && Get(t, path + [entries[i].name]) == Some(entries[i].node)
    ensures forall i, j :: 0 <= i < j < |entries| ==> entries[i].name != entries[j].name
    ensures forall n :: n in names ==> exists k :: 0 <= k < |entries| && entries[k].name == n
  {
    entries := [];
    if names != {} {
      var m :| m in names;
      var rest := SomeOrder(t, path, names - {m});
      entries := [Entry(m, t[path + [m]])] + rest;
      forall n | n in names ensures exists k :: 0 <= k < |entries| && entries[k].name == n {
        if n == m {
          assert entries[0].name == m;
        } else {
          assert n in names - {m};
          var k :| 0 <= k < |rest| && rest[k].name == n;
          assert entries[k + 1] == rest[k];
        }
      }
    }
  }

  lemma {:induction false} NamesIn(t: Tree, path: Path) returns (names: set<Name>)
    ensures forall n :: n in names <==> path + [n] in t
  {
    names := set p | p in t && |p| == |path| + 1 && path <= p :: p[|path|];
    forall p | p in t && |p| == |path| + 1 && path <= p ensures path + [p[|path|]] == p { }
    forall n: Name | path + [n] in t ensures n in names {
      var p := path + [n];
      assert p in t && path <= p && p[|path|] == n;
    }
  }

  /** Some listing of a directory begins with a given node. */
  lemma {:induction false} ListedFirst(t: Tree, path: Path, m: Name) returns (entries: seq<Entry>)
    requires path + [m] in t
    ensures Lists(t, path, entries) && entries != [] && entries[0] == Entry(m, t[path + [m]])
  {
    var names := NamesIn(t, path);
    var rest := SomeOrder(t, path, names - {m});
    entries := [Entry(m, t[path + [m]])] + rest;
    forall n: Name | path + [n] in t ensures n in Done(entries, |entries|) {
      if n != m {
        assert n in names - {m};
        var k :| 0 <= k < |rest| && rest[k].name == n;
        assert entries[k + 1] == rest[k];
      } else {
        assert entries[0].name == n;
      }
      Listed(entries, |entries|, n);
    }
  }

  // ----- The device -----

  class Disk {
    var tree: Tree
    ghost var faults: nat
    /** How often sceIoRmdir was called on a directory that still had entries. */
    ghost var refused: nat
    /** Whether some removal has failed, and how often one was tried after that. */
    ghost var failed: bool
    ghost var late: nat

    constructor ()
      ensures tree == map[] && faults == 0 && refused == 0 && !failed && late == 0
    {
      tree := map[];
      faults, refused, failed, late := 0, 0, false, 0;
    }

    method Fault() returns (b: bool)
      modifies this`faults
      ensures faults == old(faults) + if b then 1 else 0
    {
      b := *;
      if b { faults := faults + 1; }
    }

    /** sceIoDopen together with the snapshot that sceIoDread then walks. */
    method Dopen(path: Path) returns (ok: bool, entries: seq<Entry>)
      modifies this`faults
      ensures faults >= old(faults)
      ensures ok ==> Get(tree, path) == Some(Dir) && Lists(tree, path, entries) && faults == old(faults)
      ensures !ok ==> entries == [] && (faults > old(faults) <==> Get(tree, path) == Some(Dir))
    {
      ok, entries := false, [];
      if !(path in tree && tree[path].Dir?) { return; }
      var fault := Fault();
      if fault { return; }
      ok := true;
      var all := set p | p in tree && |p| == |path| + 1 && path <= p;
      var left := all;
      while left != {}
        invariant left <= all
        invariant forall i :: 0 <= i < |entries| ==> Get(tree, path + [entries[i].name]) == Some(entries[i].node)
        invariant forall i :: 0 <= i < |entries| ==> path + [entries[i].name] !in left
        invariant forall i, j :: 0 <= i < j < |entries| ==> entries[i].name != entries[j].name
        invariant forall p :: p in all - left ==> exists k :: 0 <= k < |entries| && entries[k].name == p[|path|]
        decreases left
      {
        var p :| p in left;
        var e := Entry(p[|path|], tree[p]);
        assert p == path + [e.name];
        forall q | q in all - left + {p}
          ensures exists k :: 0 <= k < |entries + [e]| && (entries + [e])[k].name == q[|path|] {
          if q == p {
            assert (entries + [e])[|entries|] == e;
          } else {
            var k :| 0 <= k < |entries| && entries[k].name == q[|path|];
            assert (entries + [e])[k] == entries[k];
          }
        }
        entries := entries + [e];
        left := left - {p};
      }
      forall n: Name | path + [n] in tree ensures n in Done(entries, |entries|) {
        assert path + [n] in all - left;
        Listed(entries, |entries|, n);
      }
    }

    /** sceIoDread past the snapshot's end, or failing early: either ends the caller's loop. */
    method DreadFails() returns (b: bool)
      modifies this`faults
      ensures faults == old(faults) + if b then 1 else 0
    {
      b := Fault();
    }

    method Getstat(path: Path) returns (res: int, node: Node)
      modifies this`faults
      ensures faults >= old(faults)
      ensures res >= 0 ==> Get(tree, path) == Some(node) && faults == old(faults)
      ensures res < 0 ==> (res == ENOENT && path !in tree && faults == old(faults))
                          || (res == EIO && faults > old(faults))
    {
      if path !in tree { return ENOENT, Dir; }
      var fault := Fault();
      if fault { return EIO, Dir; }
      return 0, tree[path];
    }

    method Rename(src: Path, dst: Path) returns (res: int)
      modifies this
      ensures faults >= old(faults)
      ensures res in {0, EEXIST, EIO, ENOENT}
      ensures res < 0 ==> tree == old(tree)
      ensures res >= 0 ==> CanRename(old(tree), src, dst) && tree == Renamed(old(tree), src, dst)
      ensures faults > old(faults) ==> res == EIO
      ensures res == EEXIST ==> src in tree && dst in tree
      ensures faults == old(faults) && src in old(tree) && dst in old(tree) ==> res == EEXIST
      ensures faults == old(faults) && CanRename(old(tree), src, dst) ==> res >= 0
    {
      if src !in tree { return ENOENT; }
      var fault := Fault();
      if fault { return EIO; }
      if dst in tree { return EEXIST; }
      if src <= dst || !ParentIsDir(tree, dst) { return ENOENT; }
      RenamedIsTree(tree, src, dst);
      tree := Renamed(tree, src, dst);
      return 0;
    }

    method Remove(path: Path) returns (res: int)
      modifies this
      ensures faults >= old(faults)
      ensures res < 0 ==> tree == old(tree)
      ensures res >= 0 ==> path in old(tree) && old(tree)[path].File? && tree == old(tree) - {path}
                           && |tree| == |old(tree)| - 1 && faults == old(faults)
      ensures refused == old(refused)
      ensures failed == (old(failed) || res < 0) && late == old(late) + if old(failed) then 1 else 0
      ensures faults == old(faults) && path in old(tree) && old(tree)[path].File? ==> res >= 0
    {
      ghost var before := failed;
      failed, late := true, late + if failed then 1 else 0;
      if path !in tree { return ENOENT; }
      if tree[path].Dir? { return EISDIR; }
      var fault := Fault();
      if fault { return EIO; }
      assert ParentIsDir(tree, path);
      forall p | p in Below(tree, path) ensures p == path { Ancestors(tree, path, p); }
      WithoutLeaf(tree, path);
      assert (tree - {path}).Keys == tree.Keys - {path};
      tree, failed := tree - {path}, before;
      return 0;
    }

    method Rmdir(path: Path) returns (res: int)
      modifies this
      ensures faults >= old(faults)
      ensures res < 0 ==> tree == old(tree)
      ensures res >= 0 ==> Get(old(tree), path) == Some(Dir) && Below(old(tree), path) == {path}
                           && tree == old(tree) - {path} && |tree| == |old(tree)| - 1 && faults == old(faults)
      ensures refused ==
              old(refused) + if Get(old(tree), path) == Some(Dir) && Below(old(tree), path) != {path} then 1 else 0
      ensures failed == (old(failed) || res < 0) && late == old(late) + if old(failed) then 1 else 0
      ensures faults == old(faults) && Get(old(tree), path) == Some(Dir) && Below(old(tree), path) == {path}
              ==> res >= 0
    {
      ghost var before := failed;
      failed, late := true, late + if failed then 1 else 0;
      if path !in tree || tree[path].File? { return ENOENT; }
      if p :| p in tree && path <= p && p != path {
        assert p in Below(tree, path);
        refused := refused + 1;
        return ENOTEMPTY;
      }
      var fault := Fault();
      if fault { return EIO; }
      WithoutLeaf(tree, path);
      assert (tree - {path}).Keys == tree.Keys - {path};
      tree, failed := tree - {path}, before;
      return 0;
    }

    method Mkdir(path: Path) returns (res: int)
      modifies this
      ensures faults >= old(faults)
      ensures res in {0, EEXIST, ENOENT, EIO}
      ensures res < 0 ==> tree == old(tree)
      ensures res >= 0 ==> path !in old(tree) && ParentIsDir(old(tree), path)
                           && tree == old(tree)[path := Dir] && faults == old(faults)
      ensures res == EEXIST ==> path in tree && faults == old(faults)
      ensures faults == old(faults) && path in old(tree) ==> res == EEXIST
      ensures faults == old(faults) && path !in old(tree) && ParentIsDir(old(tree), path) ==> res >= 0
    {
      var fault := Fault();
      if fault { return EIO; }
      if path in tree { return EEXIST; }
      if !ParentIsDir(tree, path) { return ENOENT; }
      WithNode(tree, path, Dir);
      tree := tree[path := Dir];
      return 0;
    }

    /** sceIoOpen for reading. */
    method OpenRead(path: Path) returns (res: int)
      modifies this`faults
      ensures faults >= old(faults)
      ensures res in {0, ENOENT, EISDIR, EIO}
      ensures res >= 0 ==> path in tree && tree[path].File? && faults == old(faults)
      ensures faults == old(faults) && path in tree && tree[path].File? ==> res >= 0
    {
      if path !in tree { return ENOENT; }
      if tree[path].Dir? { return EISDIR; }
      var fault := Fault();
      return if fault then EIO else 0;
    }

    /** sceIoOpen with SCE_O_WRONLY | SCE_O_CREAT | SCE_O_TRUNC. */
    method OpenTruncate(path: Path) returns (res: int)
      modifies this
      ensures faults >= old(faults)
      ensures res in {0, ENOENT, EISDIR, EIO}
      ensures res < 0 ==> tree == old(tree)
      ensures res >= 0 ==> ParentIsDir(old(tree), path) && Get(old(tree), path) != Some(Dir)
                           && tree == old(tree)[path := File([])] && faults == old(faults)
      ensures faults == old(faults) && ParentIsDir(old(tree), path) && Get(old(tree), path) != Some(Dir) ==> res >= 0
    {
      if !ParentIsDir(tree, path) { return ENOENT; }
      if path in tree && tree[path].Dir? { return EISDIR; }
      var fault := Fault();
      if fault { return EIO; }
      WithNode(tree, path, File([]));
      tree := tree[path := File([])];
      return 0;
    }

    /** sceIoRead at offset `pos`: at most `max` bytes, and none only at the end. */
    method Read(path: Path, pos: nat, max: nat) returns (res: int, chunk: seq<Byte>)
      requires path in tree && tree[path].File? && max > 0
      modifies this`faults
      ensures faults >= old(faults)
      ensures res < 0 ==> res == EIO && faults > old(faults)
      ensures res >= 0 ==> faults == old(faults) && res == |chunk| <= max
                           && pos + (if res == 0 then 0 else res) <=
                              (if pos <= |tree[path].data| then |tree[path].data| else pos)
      ensures res > 0 ==> chunk == tree[path].data[pos..pos + res]
      ensures res == 0 ==> pos >= |tree[path].data|
    {
      var fault := Fault();
      if fault { return EIO, []; }
      var size := |tree[path].data|;
      if pos >= size { return 0, []; }
      res := *;
      if !(0 < res <= max && pos + res <= size) { res := 1; }
      chunk := tree[path].data[pos..pos + res];
    }

    /** sceIoRead from the start of a file, short only when the file is. */
    method ReadStart(path: Path, max: nat) returns (res: int, chunk: seq<Byte>)
      requires path in tree && tree[path].File?
      modifies this`faults
      ensures faults >= old(faults)
      ensures res < 0 ==> faults > old(faults)
      ensures res >= 0 ==> faults == old(faults) && res == |chunk|
                           && chunk == if |tree[path].data| < max then tree[path].data else tree[path].data[..max]
    {
      var fault := Fault();
      if fault { return EIO, []; }
      chunk := if |tree[path].data| < max then tree[path].data else tree[path].data[..max];
      res := |chunk|;
    }

    /** sceIoOpen with SCE_O_WRONLY | SCE_O_CREAT, and sceIoWrite at the start: what was behind the
        written bytes stays. */
    method WriteStart(path: Path, chunk: seq<Byte>) returns (res: int)
      modifies this
      ensures faults >= old(faults)
      ensures forall p :: p != path ==> Get(tree, p) == Get(old(tree), p)
      ensures Get(tree, path) != Get(old(tree), path) ==>
              Get(old(tree), path) != Some(Dir) && Get(tree, path) != Some(Dir)
      ensures faults == old(faults) && path !in old(tree) ==>
                Get(tree, path) == if ParentIsDir(old(tree), path) then Some(File(chunk)) else None
      ensures faults == old(faults) && Get(old(tree), path) == Some(Dir) ==> Get(tree, path) == Some(Dir)
    {
      if !ParentIsDir(tree, path) { return ENOENT; }
      if path in tree && tree[path].Dir? { return EISDIR; }
      var fault := Fault();
      if fault { return EIO; }
      var data := if path in tree then tree[path].data else [];
      WithNode(tree, path, File(data));
      tree := tree[path := File(data)];
      fault := Fault();
      if fault { return EIO; }
      data := if |data| > |chunk| then chunk + data[|chunk|..] else chunk;
      WithNode(tree, path, File(data));
      tree := tree[path := File(data)];
      return |chunk|;
    }

    /** sceIoWrite at the end of the file; a write is complete or fails. */
    method Append(path: Path, chunk: seq<Byte>) returns (res: int)
      requires path in tree && tree[path].File?
      modifies this
      ensures faults >= old(faults)
      ensures res < 0 ==> res == EIO && tree == old(tree) && faults > old(faults)
      ensures res >= 0 ==> res == |chunk| && faults == old(faults)
                           && tree == old(tree)[path := File(old(tree)[path].data + chunk)]
    {
      var fault := Fault();
      if fault { return EIO; }
      assert ParentIsDir(tree, path);
      WithNode(tree, path, File(tree[path].data + chunk));
      tree := tree[path := File(tree[path].data + chunk)];
      return |chunk|;
    }
  }

  lemma {:induction false} WithoutLeaf(t: Tree, path: Path)
    requires Below(t, path) <= {path}
    ensures WellFormed(t - {path})
  {
    var t' := t - {path};
    forall p | p in t && p != path ensures ParentIsDir(t', p) {
      assert ParentIsDir(t, p);
      assert p[..|p| - 1] == path ==> p in Below(t, path);
    }
  }

  lemma {:induction false} WithNode(t: Tree, path: Path, node: Node)
    requires ParentIsDir(t, path)
    requires path in t ==> t[path].Dir? == node.Dir?
    ensures WellFormed(t[path := node])
  {
    var t' := t[path := node];
    forall p | p in t' ensures ParentIsDir(t', p) {
      assert ParentIsDir(t, p);
    }
  }
}
