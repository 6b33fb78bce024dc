/** The two phases that dlc_callback_outer of src/refresh.c goes through for one title: all
    directories to refresh are first moved out, then each is promoted or moved back. */
module Dlc {
  import opened Common
  import opened PathText
  import opened FileTree
  import opened Storage
  import opened RemovePath

  const MAX_DLC_PER_TITLE: nat := 1024

  /** strncasecmp(subdir, "sce_", 4) == 0 */
  predicate IsSystem(name: Name) {
    |name| >= 4 && SameText(name[..4], "sce_")
  }

  lemma {:induction false} SystemNames(name: Name)
    ensures IsSystem(name) <==> exists head, rest :: name == head + rest && SameText(head, "sce_")
  {
    if IsSystem(name) { assert name == name[..4] + name[4..]; }
  }

  // ----- Listing -----

  /** The names of the first `i` entries that dlc_callback_inner does not ignore. */
  function DlcNames(entries: seq<Entry>, i: nat): seq<Name>
    requires i <= |entries|
  {
    if i == 0 then []
    else if entries[i - 1].node.Dir? && !IsSystem(entries[i - 1].name) then
      DlcNames(entries, i - 1) + [entries[i - 1].name]
    else DlcNames(entries, i - 1)
  }

  function FirstOf(names: seq<Name>): seq<Name> {
    if |names| <= MAX_DLC_PER_TITLE then names else names[..MAX_DLC_PER_TITLE]
  }

  /** All of up to 1024 names, and the first 1024 of more. */
  lemma {:induction false} FirstNames(names: seq<Name>)
    ensures FirstOf(names) <= names && |FirstOf(names)| == if |names| < 1024 then |names| else 1024
  {
  }

  ghost predicate Distinct(names: seq<Name>) {
    forall i, j :: 0 <= i < j < |names| ==> names[i] != names[j]
  }

  lemma {:induction false} NamesListed(entries: seq<Entry>, i: nat)
    requires i <= |entries| && forall j, k :: 0 <= j < k < |entries| ==> entries[j].name != entries[k].name
    ensures Distinct(DlcNames(entries, i))
    ensures forall n :: n in DlcNames(entries, i) <==>
            exists k :: 0 <= k < i && entries[k] == Entry(n, Dir) && !IsSystem(n)
  {
    if i > 0 {
      NamesListed(entries, i - 1);
      var e := entries[i - 1];
      if e.node.Dir? && !IsSystem(e.name) {
        forall k | 0 <= k < i - 1 ensures entries[k].name != e.name { }
        forall n ensures n in DlcNames(entries, i) <==>
            exists k :: 0 <= k < i && entries[k] == Entry(n, Dir) && !IsSystem(n) {
          assert n in DlcNames(entries, i) <==> n in DlcNames(entries, i - 1) || n == e.name;
          if n == e.name { assert entries[i - 1] == Entry(n, Dir); }
        }
      }
    }
  }

  class RefreshData {
    var refresh_pass: bool
    var count: nat
    var refreshed: nat

    constructor (pass: bool)
      ensures refresh_pass == pass && count == 0 && refreshed == 0
    {
      refresh_pass, count, refreshed := pass, 0, 0;
    }
  }

  /** All directories in `dir` but the system's own: in the first pass they are counted, in the
      second at most MAX_DLC_PER_TITLE of them are listed. */
  ghost predicate Collects(t: Nodes, dir: Path, list: seq<Name>, all: seq<Name>) {
    && list == FirstOf(all) && Distinct(all)
    && forall n :: n in all <==> Get(t, dir + [n]) == Some(Dir) && !IsSystem(n)
  }

  /** parse_dir_with_callback with dlc_callback_inner. */
  method Collect(disk: Disk, dir: Path, data: RefreshData) returns (list: seq<Name>, ghost all: seq<Name>)
    requires dir != []
    modifies disk`faults, data`count
    ensures disk.faults >= old(disk.faults)
    ensures Distinct(list) && forall n :: n in list ==> Get(disk.tree, dir + [n]) == Some(Dir) && !IsSystem(n)
    ensures if data.refresh_pass then data.count == old(data.count)
            else list == [] && data.count == old(data.count) + |all|
    ensures disk.faults == old(disk.faults) && Get(disk.tree, dir) == Some(Dir) ==>
              Collects(disk.tree, dir, if data.refresh_pass then list else FirstOf(all), all)
  {
    list, all := [], [];
    var isDir, entries := disk.Dopen(dir);
    if !isDir { return; }
    var i := 0;
    while i < |entries|
      invariant i <= |entries| && disk.faults >= old(disk.faults)
      invariant all == DlcNames(entries, i)
      invariant if data.refresh_pass then list == FirstOf(all) && data.count == old(data.count)
                else list == [] && data.count == old(data.count) + |all|
    {
      var failed := disk.DreadFails();
      if failed { break; }
      if entries[i].node.Dir? && !IsSystem(entries[i].name) {
        if data.refresh_pass {
          if |list| < MAX_DLC_PER_TITLE { list := list + [entries[i].name]; }
        } else {
          data.count := data.count + 1;
        }
        all := all + [entries[i].name];
      }
      i := i + 1;
    }
    NamesAreDirs(disk.tree, dir, entries, i, list);
    if i == |entries| { AllListed(disk.tree, dir, entries); }
  }

  lemma {:induction false} NamesAreDirs(t: Nodes, dir: Path, entries: seq<Entry>, i: nat, list: seq<Name>)
    requires Lists(t, dir, entries) && i <= |entries| && list <= DlcNames(entries, i)
    ensures Distinct(DlcNames(entries, i)) && Distinct(list)
    ensures forall n :: n in list ==> Get(t, dir + [n]) == Some(Dir) && !IsSystem(n)
  {
    NamesListed(entries, i);
    forall n | n in list ensures Get(t, dir + [n]) == Some(Dir) && !IsSystem(n) {
      assert n in DlcNames(entries, i);
      var k :| 0 <= k < i && entries[k] == Entry(n, Dir) && !IsSystem(n);
    }
  }

  lemma {:induction false} AllListed(t: Nodes, dir: Path, entries: seq<Entry>)
    requires Lists(t, dir, entries)
    ensures forall n :: n in DlcNames(entries, |entries|) <==> Get(t, dir + [n]) == Some(Dir) && !IsSystem(n)
  {
    NamesListed(entries, |entries|);
    forall n: Name ensures n in DlcNames(entries, |entries|) <==> Get(t, dir + [n]) == Some(Dir) && !IsSystem(n) {
      if Get(t, dir + [n]) == Some(Dir) {
        Listed(entries, |entries|, n);
        var k :| 0 <= k < |entries| && entries[k].name == n;
        assert entries[k] == Entry(n, Dir);
      }
    }
  }

  // ----- Refreshing -----

  const PACKAGE: Path := ["sce_sys", "package"]
  const WORK: Path := PACKAGE + ["work.bin"]

  /** Where work.bin is, as the code writes it. */
  lemma {:induction false} WorkText(path: Path)
    requires path != []
    ensures Render(path + WORK) == Render(path) + "/" + "sce_sys" + "/" + "package" + "/" + "work.bin"
  {
    RenderJoin(path + PACKAGE, ["work.bin"]);
    RenderJoin(path + ["sce_sys"], ["package"]);
    RenderJoin(path, ["sce_sys"]);
    assert path + WORK == path + PACKAGE + ["work.bin"] && path + PACKAGE == path + ["sce_sys"] + ["package"];
  }

  /** isCustomHomebrew: a work.bin of zeros. */
  predicate IsHomebrew(bin: Option<Node>) {
    && bin.Some? && bin.value.File? && |bin.value.data| >= RIF_SIZE
    && forall i :: 0 <= i < RIF_SIZE ==> bin.value.data[i] == 0
  }

  lemma {:induction false} HomebrewIs(bin: Option<Node>)
    ensures IsHomebrew(bin) <==>
            match bin case Some(File(data)) => |data| >= 512 && data[..512] == seq(512, _ => 0) case _ => false
  {
    if bin.Some? && bin.value.File? && |bin.value.data| >= 512 {
      var data := bin.value.data;
      assert data[..512] == seq(512, _ => 0) ==> forall i :: 0 <= i < 512 ==> data[i] == data[..512][i];
    }
  }

  /** What refreshApp makes of work.bin before it promotes: it removes a homebrew's, and writes a
      missing one if there is a directory for it and the database has a licence. */
  function BinAfter(bin: Option<Node>, package: Option<Node>, licence: Option<seq<Byte>>): Option<Node> {
    if IsHomebrew(bin) then None
    else if bin == None && package == Some(Dir) && licence.Some? then Some(File(licence.value))
    else bin
  }

  /** Only work.bin of the directory changes, and it is no directory then. */
  ghost predicate OnlyBin(t: Nodes, t': Nodes, path: Path) {
    && (forall p :: p != path + WORK ==> Get(t', p) == Get(t, p))
    && (Get(t', path + WORK) != Get(t, path + WORK) ==>
        Get(t, path + WORK) != Some(Dir) && Get(t', path + WORK) != Some(Dir))
  }

  /** What refreshApp does with work.bin, case by case. */
  ghost predicate BinPrepared(bin: Option<Node>, package: Option<Node>, licence: Option<seq<Byte>>,
                              bin': Option<Node>) {
    && (IsHomebrew(bin) ==> bin' == None)
    && (bin == None && package == Some(Dir) ==>
          bin' == if licence.Some? then Some(File(licence.value)) else None)
    && (bin != None && !IsHomebrew(bin) ==> bin' == bin)
    && (bin == None && package != Some(Dir) ==> bin' == None)
  }

  method IsCustomHomebrew(disk: Disk, bin: Path) returns (homebrew: bool)
    modifies disk`faults
    ensures disk.faults >= old(disk.faults)
    ensures homebrew ==> IsHomebrew(Get(disk.tree, bin))
    ensures disk.faults == old(disk.faults) ==> homebrew == IsHomebrew(Get(disk.tree, bin))
  {
    homebrew := false;
    var fd := disk.OpenRead(bin);
    if fd >= 0 {
      var read, data := disk.ReadStart(bin, RIF_SIZE);
      homebrew := read == RIF_SIZE && forall i :: 0 <= i < RIF_SIZE ==> data[i] == 0;
    }
  }

  /** The part of refreshApp before the promotion. */
  method PrepareBin(disk: Disk, path: Path, licence: Option<seq<Byte>>)
    requires path != []
    modifies disk
    ensures disk.faults >= old(disk.faults)
    ensures OnlyBin(old(disk.tree), disk.tree, path)
    ensures disk.faults == old(disk.faults) ==>
              Get(disk.tree, path + WORK)
                  == BinAfter(Get(old(disk.tree), path + WORK), Get(old(disk.tree), path + PACKAGE), licence)
    ensures disk.faults == old(disk.faults) ==>
              BinPrepared(Get(old(disk.tree), path + WORK), Get(old(disk.tree), path + PACKAGE), licence,
                          Get(disk.tree, path + WORK))
  {
    var bin := path + WORK;
    assert bin[..|bin| - 1] == path + PACKAGE;
    var homebrew := IsCustomHomebrew(disk, bin);
    if homebrew {
      var _ := disk.Remove(bin);
    } else {
      var fd := disk.OpenRead(bin);
      if fd < 0 && licence.Some? {
        var _ := disk.WriteStart(bin, licence.value);
      }
    }
  }

  /** refreshApp: a promotion either takes the directory over, or fails and leaves it as it has been
      prepared. */
  method RefreshApp(disk: Disk, path: Path, licence: Option<seq<Byte>>) returns (res: int)
    requires path != []
    modifies disk
    ensures disk.faults >= old(disk.faults)
    ensures res == 1 ==>
            path in old(disk.tree)
            && forall p :: Get(disk.tree, p) == if path <= p then None else Get(old(disk.tree), p)
    ensures res != 1 ==> OnlyBin(old(disk.tree), disk.tree, path)
    ensures res != 1 && disk.faults == old(disk.faults) ==>
              Get(disk.tree, path + WORK)
                  == BinAfter(Get(old(disk.tree), path + WORK), Get(old(disk.tree), path + PACKAGE), licence)
    ensures res != 1 && disk.faults == old(disk.faults) ==>
              BinPrepared(Get(old(disk.tree), path + WORK), Get(old(disk.tree), path + PACKAGE), licence,
                          Get(disk.tree, path + WORK))
  {
    PrepareBin(disk, path, licence);
    res := *;
    if path !in disk.tree { res := -1; }
    if res == 1 {
      assert |WORK| == 3 && path != path + WORK && path <= path + WORK;
      assert Get(disk.tree, path) == Get(old(disk.tree), path);
      var rest := map p | p in disk.tree && !(path <= p) :: disk.tree[p];
      RestIsTree(disk.tree, path, rest);
      disk.tree := rest;
    }
  }

  lemma {:induction false} RestIsTree(t: Tree, path: Path, rest: Nodes)
    requires forall p :: Get(rest, p) == if path <= p then None else Get(t, p)
    requires path != []
    ensures WellFormed(rest)
  {
    forall p | p in rest ensures ParentIsDir(rest, p) {
      assert Get(rest, p) == Get(t, p) && ParentIsDir(t, p);
      if |p| > 1 {
        var up := p[..|p| - 1];
        assert path <= up ==> path <= p;
        assert Get(rest, up) == Get(t, up);
      }
    }
  }

  // ----- Where each directory is -----

  /** At home, in the temporary directory, or promoted, with what is at work.bin. */
  datatype Place = Home(bin: Option<Node>) | Temp(bin: Option<Node>) | Promoted

  /** What was directory `n` of `dir` in `t0` is there in `t`, whole but for work.bin. */
  ghost predicate IsAt(t0: Nodes, t: Nodes, dir: Path, temp: Path, n: Name, place: Place) {
    match place
    case Home(bin) => forall r :: At(t, dir + [n], r) == Seen(t0, dir + [n], bin, r)
    case Temp(bin) => forall r :: At(t, temp + [n], r) == Seen(t0, dir + [n], bin, r) && At(t, dir + [n], r) == None
    case Promoted => forall r :: At(t, temp + [n], r) == None && At(t, dir + [n], r) == None
  }

  ghost function Seen(t0: Nodes, path: Path, bin: Option<Node>, r: Path): Option<Node> {
    if r == WORK then bin else At(t0, path, r)
  }

  /** Where a directory is at first. */
  ghost function AtHome(t0: Nodes, dir: Path, n: Name): Place { Home(At(t0, dir + [n], WORK)) }

  /** Where it may be after an undisturbed refresh that failed. */
  ghost function Restored(t0: Nodes, dir: Path, n: Name, licence: Option<seq<Byte>>): Place {
    Home(BinAfter(At(t0, dir + [n], WORK), At(t0, dir + [n], PACKAGE), licence))
  }

  /** Its work.bin is then gone if it was a homebrew's, the licence if it was missing with a place and a
      licence for it, and otherwise what it was. */
  lemma {:induction false} RestoredBin(t0: Nodes, t: Nodes, dir: Path, temp: Path, n: Name,
                                       licence: Option<seq<Byte>>)
    requires IsAt(t0, t, dir, temp, n, Restored(t0, dir, n, licence))
    ensures BinPrepared(At(t0, dir + [n], WORK), At(t0, dir + [n], PACKAGE), licence, At(t, dir + [n], WORK))
  {
    var bin := Restored(t0, dir, n, licence).bin;
    assert At(t, dir + [n], WORK) == Seen(t0, dir + [n], bin, WORK);
  }

  /** It is whole exactly if there was nothing to remove and nothing to write. */
  lemma {:induction false} RestoredWhole(t0: Nodes, t: Nodes, dir: Path, temp: Path, n: Name,
                                         licence: Option<seq<Byte>>)
    requires IsAt(t0, t, dir, temp, n, Restored(t0, dir, n, licence))
    ensures var bin, package := At(t0, dir + [n], WORK), At(t0, dir + [n], PACKAGE);
      (forall r :: At(t, dir + [n], r) == At(t0, dir + [n], r))
      <==> !IsHomebrew(bin) && !(bin == None && package == Some(Dir) && licence.Some?)
  {
    var bin := At(t0, dir + [n], WORK);
    var after := BinAfter(bin, At(t0, dir + [n], PACKAGE), licence);
    assert At(t, dir + [n], WORK) == Seen(t0, dir + [n], after, WORK);
    if after == bin {
      forall r ensures At(t, dir + [n], r) == At(t0, dir + [n], r) {
        assert At(t, dir + [n], r) == Seen(t0, dir + [n], after, r);
      }
      assert !IsHomebrew(bin);
    } else {
      assert At(t, dir + [n], WORK) != At(t0, dir + [n], WORK);
    }
  }

  /** And there is something to remove: whatever the paths, some tree has a homebrew's work.bin, and the
      directory that comes back is not whole. */
  lemma {:induction false} HomebrewIsNotWhole(dir: Path, temp: Path, n: Name, licence: Option<seq<Byte>>)
      returns (t0: Tree, t: Tree)
    ensures IsAt(t0, t, dir, temp, n, Restored(t0, dir, n, licence))
    ensures At(t0, dir + [n], WORK).Some? && At(t, dir + [n], WORK) == None
  {
    var bin := dir + [n] + WORK;
    t0 := OneLeaf(bin, File(seq(RIF_SIZE, _ => 0)));
    forall p | p in t0 && bin <= p ensures p == bin { assert Get(t0, p).Some?; }
    WithoutLeaf(t0, bin);
    t := t0 - {bin};
    assert IsHomebrew(Get(t0, bin));
    forall r ensures At(t, dir + [n], r) == Seen(t0, dir + [n], None, r) {
      assert r != WORK ==> dir + [n] + r != bin by {
        if dir + [n] + r == bin { assert r == bin[|dir + [n]|..] == WORK; }
      }
    }
  }

  /** Only what lies at or below `n` in one of the two directories changes. */
  ghost predicate Touches(t: Nodes, t': Nodes, dir: Path, temp: Path, n: Name) {
    SameOutside(t, t', dir + [n], temp + [n])
  }

  lemma {:induction false} OthersStay(t0: Nodes, t: Nodes, t': Nodes, dir: Path, temp: Path, n: Name, m: Name,
                                      place: Place)
    requires FileTree.Apart(dir, temp) && n != m && Touches(t, t', dir, temp, n)
    ensures IsAt(t0, t, dir, temp, m, place) ==> IsAt(t0, t', dir, temp, m, place)
  {
    forall r ensures At(t', dir + [m], r) == At(t, dir + [m], r) && At(t', temp + [m], r) == At(t, temp + [m], r) {
      NotThrough(dir, temp, n, [m] + r);
      NotThrough(temp, dir, n, [m] + r);
      assert dir + ([m] + r) == dir + [m] + r && temp + ([m] + r) == temp + [m] + r;
      assert Get(t', dir + [m] + r) == Get(t, dir + [m] + r);
      assert Get(t', temp + [m] + r) == Get(t, temp + [m] + r);
    }
  }

  // ----- One directory -----

  /** The first phase for one directory that needs a refresh. */
  method MoveOut(disk: Disk, dir: Path, temp: Path, n: Name, ghost t0: Nodes) returns (ghost place: Place)
    requires dir != [] && temp != [] && FileTree.Apart(dir, temp)
    requires IsAt(t0, disk.tree, dir, temp, n, AtHome(t0, dir, n))
    modifies disk
    ensures disk.faults >= old(disk.faults)
    ensures Touches(old(disk.tree), disk.tree, dir, temp, n)
    ensures place in {AtHome(t0, dir, n), Temp(AtHome(t0, dir, n).bin)} && IsAt(t0, disk.tree, dir, temp, n, place)
    ensures disk.faults == old(disk.faults) && dir + [n] in t0 && Get(old(disk.tree), temp) == Some(Dir) ==> place.Temp?
  {
    ghost var t := disk.tree;
    var ret := RemovePath.RemovePath(disk, temp + [n], null);
    ghost var t1 := disk.tree;
    Cleared(t, t1, dir, temp, n, ret);
    IsAtSame(t0, t, t1, dir, temp, n);
    HomeIsThere(t0, t1, dir, temp, n);
    TempApart(dir, temp, n, []);
    TempApart(temp, dir, n, []);
    assert (temp + [n])[..|temp + [n]| - 1] == temp;
    ret := disk.Rename(dir + [n], temp + [n]);
    place := AtHome(t0, dir, n);
    if ret >= 0 {
      place := Temp(place.bin);
      RenamedFacts(t1, dir + [n], temp + [n]);
    }
  }

  lemma {:induction false} HomeIsThere(t0: Nodes, t: Nodes, dir: Path, temp: Path, n: Name)
    requires IsAt(t0, t, dir, temp, n, AtHome(t0, dir, n))
    ensures dir + [n] in t0 ==> dir + [n] in t
    ensures dir + [n] + [] == dir + [n] && temp + [n] + [] == temp + [n]
  {
    assert dir + [n] + [] == dir + [n];
    assert At(t, dir + [n], []) == Seen(t0, dir + [n], At(t0, dir + [n], WORK), []);
  }

  lemma {:induction false} Cleared(t: Tree, t': Tree, dir: Path, temp: Path, n: Name, ret: int)
    requires dir != [] && temp != [] && FileTree.Apart(dir, temp) && RemovedBelow(t, t', temp + [n])
    requires ret == 1 ==> Below(t', temp + [n]) == {}
    ensures forall r :: At(t', dir + [n], r) == At(t, dir + [n], r)
    ensures Touches(t, t', dir, temp, n)
    ensures Get(t', temp) == Get(t, temp)
    ensures ret == 1 || temp + [n] !in t ==> temp + [n] !in t'
  {
    forall r ensures At(t', dir + [n], r) == At(t, dir + [n], r) {
      TempApart(dir, temp, n, r);
      assert Get(t', dir + [n] + r) == Get(t, dir + [n] + r) || temp + [n] <= dir + [n] + r;
    }
    assert Get(t', temp + [n]) == Get(t, temp + [n]) || Get(t', temp + [n]) == None;
    assert temp + [n] in t' ==> temp + [n] in Below(t', temp + [n]);
  }

  lemma {:induction false} TempApart(dir: Path, temp: Path, n: Name, r: Path)
    requires FileTree.Apart(dir, temp)
    ensures !(temp + [n] <= dir + [n] + r)
  {
    assert dir <= dir + [n] + r;
    assert temp + [n] <= dir + [n] + r ==> temp <= dir + [n] + r;
    PrefixesOfOne(temp, dir, dir + [n] + r);
  }

  lemma {:induction false} IsAtSame(t0: Nodes, t: Nodes, t': Nodes, dir: Path, temp: Path, n: Name)
    requires IsAt(t0, t, dir, temp, n, AtHome(t0, dir, n)) && forall r :: At(t', dir + [n], r) == At(t, dir + [n], r)
    ensures IsAt(t0, t', dir, temp, n, AtHome(t0, dir, n))
  {
  }

  /** The second phase for one directory, wherever the first has left it. */
  method PromoteOrRestore(disk: Disk, dir: Path, temp: Path, n: Name, licence: Option<seq<Byte>>, ghost t0: Nodes,
                          ghost was: Place)
    returns (promoted: bool, ghost place: Place)
    requires dir != [] && temp != [] && FileTree.Apart(dir, temp)
    requires was in {AtHome(t0, dir, n), Temp(AtHome(t0, dir, n).bin)}
    requires IsAt(t0, disk.tree, dir, temp, n, was) && dir + [n] in t0
    modifies disk
    ensures disk.faults >= old(disk.faults)
    ensures Touches(old(disk.tree), disk.tree, dir, temp, n)
    ensures IsAt(t0, disk.tree, dir, temp, n, place) && (was.Home? ==> place == was) && (place == Promoted ==> promoted)
    ensures disk.faults == old(disk.faults) && was.Temp? && Get(old(disk.tree), dir) == Some(Dir) ==>
              place == if promoted then Promoted else Restored(t0, dir, n, licence)
  {
    ghost var t := disk.tree;
    var res := RefreshApp(disk, temp + [n], licence);
    ghost var t1 := disk.tree;
    promoted, place := res == 1, was;
    if res == 1 {
      Taken(t0, t, t1, dir, temp, n, was);
      if was.Temp? { place := Promoted; }
    } else {
      place := Prepared(t0, t, t1, dir, temp, n, was);
      Occupied(t0, t, t1, dir, temp, n, was);
      TempApart(temp, dir, n, []);
      assert (dir + [n])[..|dir + [n]| - 1] == dir;
      assert dir + [n] + [] == dir + [n] && temp + [n] + [] == temp + [n];
      res := disk.Rename(temp + [n], dir + [n]);
      if res >= 0 {
        RenamedFacts(t1, temp + [n], dir + [n]);
        place := Home(place.bin);
      }
    }
  }

  /** The failed refresh has changed work.bin, where the directory is in its reach. */
  lemma {:induction false} Prepared(t0: Nodes, t: Nodes, t1: Nodes, dir: Path, temp: Path, n: Name, was: Place)
      returns (place: Place)
    requires FileTree.Apart(dir, temp) && was in {AtHome(t0, dir, n), Temp(AtHome(t0, dir, n).bin)}
    requires IsAt(t0, t, dir, temp, n, was) && OnlyBin(t, t1, temp + [n])
    ensures IsAt(t0, t1, dir, temp, n, place) && Touches(t, t1, dir, temp, n) && Get(t1, dir) == Get(t, dir)
    ensures if was.Home? then place == was
            else place == Temp(Get(t1, temp + [n] + WORK))
                 && Get(t, temp + [n] + WORK) == At(t0, dir + [n], WORK)
                 && Get(t, temp + [n] + PACKAGE) == At(t0, dir + [n], PACKAGE)
  {
    var bin := temp + [n] + WORK;
    place := if was.Home? then was else Temp(Get(t1, bin));
    forall r ensures At(t1, dir + [n], r) == At(t, dir + [n], r)
        && (r != WORK ==> At(t1, temp + [n], r) == At(t, temp + [n], r)) {
      TempApart(dir, temp, n, r);
      assert temp + [n] <= bin;
      assert (temp + [n] + r)[|temp + [n]|..] == r && bin[|temp + [n]|..] == WORK;
      assert Get(t1, dir + [n] + r) == Get(t, dir + [n] + r);
      assert r != WORK ==> Get(t1, temp + [n] + r) == Get(t, temp + [n] + r);
    }
    assert temp + [n] <= bin && temp <= temp + [n];
    assert bin == dir ==> temp <= dir;
    assert was.Temp? ==> At(t, temp + [n], WORK) == Seen(t0, dir + [n], was.bin, WORK);
    assert was.Temp? ==> At(t, temp + [n], PACKAGE) == Seen(t0, dir + [n], was.bin, PACKAGE);
  }

  /** Which of the two names is taken. */
  lemma {:induction false} Occupied(t0: Nodes, t: Nodes, t1: Nodes, dir: Path, temp: Path, n: Name, was: Place)
    requires FileTree.Apart(dir, temp) && was in {AtHome(t0, dir, n), Temp(AtHome(t0, dir, n).bin)} && dir + [n] in t0
    requires IsAt(t0, t, dir, temp, n, was) && OnlyBin(t, t1, temp + [n])
    ensures if was.Home? then dir + [n] in t1 else dir + [n] !in t1 && temp + [n] in t1
  {
    assert dir + [n] + [] == dir + [n] && temp + [n] + [] == temp + [n];
    TempApart(dir, temp, n, []);
    assert temp + [n] <= temp + [n] + WORK && temp + [n] != temp + [n] + WORK;
    assert Get(t1, dir + [n]) == Get(t, dir + [n]) && Get(t1, temp + [n]) == Get(t, temp + [n]);
    assert At(t, dir + [n], []) == if was.Home? then At(t0, dir + [n], []) else None;
    assert was.Temp? ==> At(t, temp + [n], []) == At(t0, dir + [n], []);
  }

  lemma {:induction false} Taken(t0: Nodes, t: Nodes, t': Nodes, dir: Path, temp: Path, n: Name, was: Place)
    requires FileTree.Apart(dir, temp) && !was.Promoted? && IsAt(t0, t, dir, temp, n, was)
    requires forall p :: Get(t', p) == if temp + [n] <= p then None else Get(t, p)
    ensures IsAt(t0, t', dir, temp, n, if was.Temp? then Promoted else was)
    ensures Touches(t, t', dir, temp, n)
  {
    forall r ensures At(t', dir + [n], r) == At(t, dir + [n], r) && At(t', temp + [n], r) == None {
      TempApart(dir, temp, n, r);
      assert Get(t', dir + [n] + r) == Get(t, dir + [n] + r);
      assert Get(t', temp + [n] + r) == None;
    }
  }

  // ----- All directories of a title -----

  ghost predicate AllAt(t0: Nodes, t: Nodes, dir: Path, temp: Path, names: seq<Name>, places: seq<Place>) {
    |places| == |names| && forall k :: 0 <= k < |names| ==> IsAt(t0, t, dir, temp, names[k], places[k])
  }

  /** `p` is not at or below any of `names` in the two directories. */
  ghost predicate Elsewhere(dir: Path, temp: Path, names: seq<Name>, p: Path) {
    forall n {:trigger n in names} :: n in names ==> !(dir + [n] <= p) && !(temp + [n] <= p)
  }

  ghost predicate SameElsewhere(t: Nodes, t': Nodes, dir: Path, temp: Path, names: seq<Name>) {
    forall p :: Elsewhere(dir, temp, names, p) ==> Get(t', p) == Get(t, p)
  }

  lemma {:induction false} OneStep(t0: Nodes, t: Nodes, t': Nodes, dir: Path, temp: Path, names: seq<Name>,
                                   places: seq<Place>, i: nat, place: Place)
    requires FileTree.Apart(dir, temp) && Distinct(names) && i < |names|
    requires AllAt(t0, t, dir, temp, names, places) && SameElsewhere(t0, t, dir, temp, names)
    requires Touches(t, t', dir, temp, names[i]) && IsAt(t0, t', dir, temp, names[i], place)
    ensures AllAt(t0, t', dir, temp, names, places[i := place]) && SameElsewhere(t0, t', dir, temp, names)
    ensures Get(t', dir) == Get(t, dir) && Get(t', temp) == Get(t, temp)
  {
    forall k | 0 <= k < |names| && k != i ensures IsAt(t0, t', dir, temp, names[k], places[k]) {
      OthersStay(t0, t, t', dir, temp, names[i], names[k], places[k]);
    }
    forall p | Elsewhere(dir, temp, names, p) ensures Get(t', p) == Get(t0, p) {
      assert names[i] in names;
      assert Get(t', p) == Get(t, p) && Get(t, p) == Get(t0, p);
    }
    assert dir <= dir + [names[i]] && temp <= temp + [names[i]];
    assert Get(t', dir) == Get(t, dir) && Get(t', temp) == Get(t, temp) by {
      assert !(dir + [names[i]] <= dir) && !(temp + [names[i]] <= temp);
      assert temp + [names[i]] <= dir ==> temp <= dir;
      assert dir + [names[i]] <= temp ==> dir <= temp;
    }
  }

  function CountPromoted(places: seq<Place>): nat {
    if places == [] then 0
    else CountPromoted(places[..|places| - 1]) + if places[|places| - 1] == Promoted then 1 else 0
  }

  lemma {:induction false} CountStep(places: seq<Place>, i: nat, place: Place)
    requires i < |places|
    ensures CountPromoted(places[i := place][..i + 1]) ==
            CountPromoted(places[..i]) + if place == Promoted then 1 else 0
  {
    var next := places[i := place][..i + 1];
    assert next[..i] == places[..i];
  }

  /** What the first phase leaves of one directory, undisturbed. */
  ghost function FirstPlace(t0: Nodes, dir: Path, n: Name, needed: bool): Place {
    if needed then Temp(AtHome(t0, dir, n).bin) else AtHome(t0, dir, n)
  }

  ghost predicate AllOut(t0: Nodes, dir: Path, names: seq<Name>, needs: Name -> bool, places: seq<Place>) {
    |places| == |names| && forall k :: 0 <= k < |names| ==> places[k] == FirstPlace(t0, dir, names[k], needs(names[k]))
  }

  ghost predicate MovedOut(t0: Nodes, dir: Path, names: seq<Name>, needs: Name -> bool, places: seq<Place>, i: nat) {
    && i <= |names| == |places|
    && forall k :: 0 <= k < |names| ==>
         places[k] == AtHome(t0, dir, names[k])
             || (k < i && needs(names[k]) && places[k] == FirstPlace(t0, dir, names[k], true))
  }

  /** The list of strings, and how often each was freed, after the first `i`. */
  ghost predicate StringsListed(names: seq<Name>, needs: Name -> bool, list: seq<Option<Name>>, frees: seq<nat>,
                                i: nat) {
    && |list| == |frees| == |names|
    && forall k :: 0 <= k < |names| ==>
         var out := k < i && !needs(names[k]);
         list[k] == (if out then None else Some(names[k])) && frees[k] == if out then 1 else 0
  }

  /** The first phase: what does not need a refresh is freed, the rest is moved out. */
  method MoveAllOut(disk: Disk, dir: Path, temp: Path, names: seq<Name>, needs: Name -> bool)
    returns (list: seq<Option<Name>>, ghost places: seq<Place>, ghost frees: seq<nat>)
    requires dir != [] && temp != [] && FileTree.Apart(dir, temp) && Distinct(names)
    requires forall n :: n in names ==> dir + [n] in disk.tree
    modifies disk
    ensures disk.faults >= old(disk.faults)
    ensures AllAt(old(disk.tree), disk.tree, dir, temp, names, places)
            && SameElsewhere(old(disk.tree), disk.tree, dir, temp, names)
    ensures Get(disk.tree, dir) == Get(old(disk.tree), dir)
    ensures MovedOut(old(disk.tree), dir, names, needs, places, |names|)
            && StringsListed(names, needs, list, frees, |names|)
    ensures disk.faults == old(disk.faults) && Get(old(disk.tree), temp) == Some(Dir) ==>
              AllOut(old(disk.tree), dir, names, needs, places)
  {
    ghost var t0, f0 := disk.tree, disk.faults;
    list := seq(|names|, k requires 0 <= k < |names| => Some(names[k]));
    places := seq(|names|, k requires 0 <= k < |names| => AtHome(t0, dir, names[k]));
    frees := seq(|names|, _ => 0);
    var i := 0;
    while i < |names|
      invariant i <= |names| && disk.faults >= f0
      invariant AllAt(t0, disk.tree, dir, temp, names, places) && SameElsewhere(t0, disk.tree, dir, temp, names)
      invariant Get(disk.tree, dir) == Get(t0, dir) && Get(disk.tree, temp) == Get(t0, temp)
      invariant MovedOut(t0, dir, names, needs, places, i) && StringsListed(names, needs, list, frees, i)
      invariant disk.faults == f0 && Get(t0, temp) == Some(Dir) ==>
                  forall k :: 0 <= k < i ==> places[k] == FirstPlace(t0, dir, names[k], needs(names[k]))
    {
      if needs(names[i]) {
        ghost var t := disk.tree;
        assert names[i] in names;
        ghost var place := MoveOut(disk, dir, temp, names[i], t0);
        OneStep(t0, t, disk.tree, dir, temp, names, places, i, place);
        places := places[i := place];
      } else {
        list, frees := list[i := None], frees[i := frees[i] + 1];
      }
      i := i + 1;
    }
  }

  /** Undisturbed, each directory that was moved out is promoted or restored. */
  ghost predicate Settled(t0: Nodes, dir: Path, names: seq<Name>, needs: Name -> bool,
                          licences: Name -> Option<seq<Byte>>, places: seq<Place>, i: nat) {
    && i <= |places| == |names|
    && forall k :: 0 <= k < i ==>
         if needs(names[k]) then places[k] in {Promoted, Restored(t0, dir, names[k], licences(names[k]))}
         else places[k] == AtHome(t0, dir, names[k])
  }

  /** After `i` of the directories: what has been freed, and what has not been moved. */
  ghost predicate SecondPhase(list: seq<Option<Name>>, places0: seq<Place>, places: seq<Place>, frees: seq<nat>,
                              i: nat) {
    && i <= |list| == |places0| == |places| == |frees|
    && (forall k :: 0 <= k < |list| ==> frees[k] == if k < i || list[k] == None then 1 else 0)
    && (forall k :: 0 <= k < |list| && (k >= i || places0[k].Home?) ==> places[k] == places0[k])
  }

  lemma {:induction false} SecondStep(list: seq<Option<Name>>, places0: seq<Place>, places: seq<Place>,
                                      frees: seq<nat>, i: nat, place: Place)
    requires SecondPhase(list, places0, places, frees, i) && i < |list| && (places0[i].Home? ==> place == places0[i])
    ensures SecondPhase(list, places0, places[i := place],
                        if list[i] == None then frees else frees[i := frees[i] + 1], i + 1)
  {
  }

  /** One directory of the second phase, which the first has left at `places[i]`. */
  method PromoteEntry(disk: Disk, dir: Path, temp: Path, n: Name, licence: Option<seq<Byte>>, data: RefreshData,
                      ghost t0: Nodes, ghost names: seq<Name>, ghost places: seq<Place>, ghost i: nat)
      returns (ghost place: Place)
    requires dir != [] && temp != [] && FileTree.Apart(dir, temp) && Distinct(names)
    requires i < |names| && n == names[i] && dir + [n] in t0
    requires AllAt(t0, disk.tree, dir, temp, names, places) && SameElsewhere(t0, disk.tree, dir, temp, names)
    requires places[i] in {AtHome(t0, dir, n), Temp(AtHome(t0, dir, n).bin)}
    modifies disk, data`refreshed
    ensures disk.faults >= old(disk.faults)
    ensures AllAt(t0, disk.tree, dir, temp, names, places[i := place]) && SameElsewhere(t0, disk.tree, dir, temp, names)
    ensures Get(disk.tree, dir) == Get(old(disk.tree), dir) && (places[i].Home? ==> place == places[i])
    ensures var counted := data.refreshed - old(data.refreshed);
      0 <= counted <= 1 && (place == Promoted ==> counted == 1)
    ensures disk.faults == old(disk.faults) && places[i].Temp? && Get(disk.tree, dir) == Some(Dir) ==>
              && place in {Promoted, Restored(t0, dir, n, licence)}
              && data.refreshed == old(data.refreshed) + if place == Promoted then 1 else 0
  {
    ghost var t := disk.tree;
    var promoted;
    promoted, place := PromoteOrRestore(disk, dir, temp, n, licence, t0, places[i]);
    OneStep(t0, t, disk.tree, dir, temp, names, places, i, place);
    if promoted { data.refreshed := data.refreshed + 1; }
  }

  /** Undisturbed: what is settled of the first `i`, and how many of them were counted. */
  ghost predicate Counting(t0: Nodes, dir: Path, names: seq<Name>, needs: Name -> bool,
                           licences: Name -> Option<seq<Byte>>, places: seq<Place>, i: nat, counted: int) {
    Settled(t0, dir, names, needs, licences, places, i) && counted == CountPromoted(places[..i])
  }

  lemma {:induction false} CountingStep(t0: Nodes, dir: Path, names: seq<Name>, needs: Name -> bool,
                                        licences: Name -> Option<seq<Byte>>, places: seq<Place>, i: nat,
                                       counted: int, place: Place, counted': int)
    requires Counting(t0, dir, names, needs, licences, places, i, counted) && i < |names|
    requires if needs(names[i]) then place in {Promoted, Restored(t0, dir, names[i], licences(names[i]))}
             else place == AtHome(t0, dir, names[i])
    requires counted' == counted + if place == Promoted then 1 else 0
    ensures Counting(t0, dir, names, needs, licences, places[i := place], i + 1, counted')
  {
    CountStep(places, i, place);
  }

  /** Disturbed or not: what was promoted is counted, and no directory twice. */
  ghost predicate CountBounds(places: seq<Place>, i: nat, counted: int) {
    i <= |places| && CountPromoted(places[..i]) <= counted <= i
  }

  lemma {:induction false} CountBoundsStep(places: seq<Place>, i: nat, counted: int, place: Place, counted': int)
    requires CountBounds(places, i, counted) && i < |places|
    requires counted <= counted' <= counted + 1 && (place == Promoted ==> counted' == counted + 1)
    ensures CountBounds(places[i := place], i + 1, counted')
  {
    CountStep(places, i, place);
  }

  /** After `i` directories of the second phase. `good` tells that the first has done all it should, `quiet`
      that the device has failed no call since. */
  ghost predicate Promoting(t0: Nodes, t: Nodes, dir: Path, temp: Path, names: seq<Name>, needs: Name -> bool,
                            licences: Name -> Option<seq<Byte>>, list: seq<Option<Name>>, places0: seq<Place>,
                            places: seq<Place>, frees: seq<nat>, i: nat, good: bool, quiet: bool, counted: int)
  {
    && SecondPhase(list, places0, places, frees, i) && CountBounds(places, i, counted)
    && AllAt(t0, t, dir, temp, names, places) && SameElsewhere(t0, t, dir, temp, names)
    && (good ==> Get(t, dir) == Some(Dir))
    && (quiet && good ==> Counting(t0, dir, names, needs, licences, places, i, counted))
  }

  /** The same, over the one value of `u`, so that the loop does not take it apart. */
  ghost predicate Promotes(t0: Nodes, t: Nodes, dir: Path, temp: Path, names: seq<Name>, needs: Name -> bool,
                           licences: Name -> Option<seq<Byte>>, list: seq<Option<Name>>, places0: seq<Place>,
                           places: seq<Place>, frees: seq<nat>, i: nat, good: bool, quiet: bool, counted: int)
  {
    forall u {:trigger Promoting(t0, t, dir, temp, names, needs, licences, list, places0, u, frees, i, good, quiet,
                                 counted)} :: u == places ==>
      Promoting(t0, t, dir, temp, names, needs, licences, list, places0, u, frees, i, good, quiet, counted)
  }

  lemma {:induction false} PromotingStep(t0: Nodes, t: Nodes, t': Nodes, dir: Path, temp: Path, names: seq<Name>,
                                         needs: Name -> bool, licences: Name -> Option<seq<Byte>>,
                                         list: seq<Option<Name>>, places0: seq<Place>, places: seq<Place>,
                                         frees: seq<nat>, i: nat, good: bool, quiet: bool, quiet': bool,
                                         counted: int, place: Place, counted': int)
    requires i < |list| == |names| && (quiet' ==> quiet)
    requires Promoting(t0, t, dir, temp, names, needs, licences, list, places0, places, frees, i, good, quiet, counted)
    requires AllAt(t0, t', dir, temp, names, places[i := place]) && SameElsewhere(t0, t', dir, temp, names)
    requires Get(t', dir) == Get(t, dir) && (places0[i].Home? ==> place == places0[i])
    requires counted <= counted' <= counted + 1 && (place == Promoted ==> counted' == counted + 1)
    requires quiet' && good ==>
               && counted' == counted + (if place == Promoted then 1 else 0)
               && if needs(names[i]) then place in {Promoted, Restored(t0, dir, names[i], licences(names[i]))}
                  else place == AtHome(t0, dir, names[i])
    ensures Promotes(t0, t', dir, temp, names, needs, licences, list, places0, places[i := place],
                     if list[i] == None then frees else frees[i := frees[i] + 1], i + 1, good, quiet', counted')
  {
    SecondStep(list, places0, places, frees, i, place);
    CountBoundsStep(places, i, counted, place, counted');
    if quiet' && good {
      CountingStep(t0, dir, names, needs, licences, places, i, counted, place, counted');
    }
  }

  /** The first phase has left the strings of `names` in `list`, and `places0`. */
  ghost predicate Handed(t0: Nodes, dir: Path, temp: Path, names: seq<Name>, needs: Name -> bool,
                         list: seq<Option<Name>>, places0: seq<Place>, good: bool) {
    && dir != [] && temp != [] && FileTree.Apart(dir, temp) && Distinct(names)
    && (forall n :: n in names ==> dir + [n] in t0)
    && |list| == |names| && MovedOut(t0, dir, names, needs, places0, |names|)
    && (forall k :: 0 <= k < |names| ==> list[k] == if needs(names[k]) then Some(names[k]) else None)
    && (good ==> AllOut(t0, dir, names, needs, places0))
  }

  /** One pass of the loop of the second phase. */
  method PromoteNext(disk: Disk, dir: Path, temp: Path, list: seq<Option<Name>>, data: RefreshData,
                     licences: Name -> Option<seq<Byte>>, i: nat,
                     ghost names: seq<Name>, ghost needs: Name -> bool, ghost t0: Nodes, ghost places0: seq<Place>,
                     ghost places: seq<Place>, ghost frees: seq<nat>, ghost good: bool, ghost f0: nat,
                     ghost refreshed0: nat)
    returns (ghost places': seq<Place>, ghost frees': seq<nat>)
    requires i < |list| && disk.faults >= f0 && Handed(t0, dir, temp, names, needs, list, places0, good)
    requires Promotes(t0, disk.tree, dir, temp, names, needs, licences, list, places0, places, frees, i, good,
                      disk.faults == f0, data.refreshed - refreshed0)
    modifies disk, data`refreshed
    ensures disk.faults >= f0
    ensures Promotes(t0, disk.tree, dir, temp, names, needs, licences, list, places0, places', frees', i + 1, good,
                     disk.faults == f0, data.refreshed - refreshed0)
  {
    ghost var t, f1, counted := disk.tree, disk.faults, data.refreshed - refreshed0;
    assert Promoting(t0, t, dir, temp, names, needs, licences, list, places0, places, frees, i, good, f1 == f0,
                     counted);
    assert names[i] in names && places[i] == places0[i];
    ghost var place := places[i];
    if list[i] != None {
      place := PromoteEntry(disk, dir, temp, list[i].value, licences(list[i].value), data, t0, names, places, i);
    } else {
      assert places[i := place] == places;
    }
    PromotingStep(t0, t, disk.tree, dir, temp, names, needs, licences, list, places0, places, frees, i, good,
                  f1 == f0, disk.faults == f0, counted, place, data.refreshed - refreshed0);
    places', frees' := places[i := place], if list[i] == None then frees else frees[i := frees[i] + 1];
  }

  /** The second phase. */
  method PromoteAll(disk: Disk, dir: Path, temp: Path, list: seq<Option<Name>>, data: RefreshData,
                    licences: Name -> Option<seq<Byte>>,
                    ghost names: seq<Name>, ghost needs: Name -> bool, ghost t0: Nodes, ghost places0: seq<Place>,
                    ghost frees0: seq<nat>)
    returns (ghost places: seq<Place>, ghost frees: seq<nat>)
    requires dir != [] && temp != [] && FileTree.Apart(dir, temp) && Distinct(names)
    requires forall n :: n in names ==> dir + [n] in t0
    requires AllAt(t0, disk.tree, dir, temp, names, places0) && SameElsewhere(t0, disk.tree, dir, temp, names)
    requires MovedOut(t0, dir, names, needs, places0, |names|) && StringsListed(names, needs, list, frees0, |names|)
    modifies disk, data`refreshed
    ensures disk.faults >= old(disk.faults)
    ensures AllAt(t0, disk.tree, dir, temp, names, places) && SameElsewhere(t0, disk.tree, dir, temp, names)
    ensures SecondPhase(list, places0, places, frees, |list|)
    ensures CountBounds(places, |names|, data.refreshed - old(data.refreshed))
    ensures disk.faults == old(disk.faults) && Get(old(disk.tree), dir) == Some(Dir)
            && AllOut(t0, dir, names, needs, places0) ==>
              Counting(t0, dir, names, needs, licences, places, |names|, data.refreshed - old(data.refreshed))
  {
    places, frees := places0, frees0;
    ghost var f0, refreshed0 := disk.faults, data.refreshed;
    ghost var good := Get(disk.tree, dir) == Some(Dir) && AllOut(t0, dir, names, needs, places0);
    PromotionStarts(t0, disk.tree, dir, temp, names, needs, licences, list, places0, frees0, good);
    var i := 0;
    while i < |list|
      invariant i <= |list| && disk.faults >= f0
      invariant Promotes(t0, disk.tree, dir, temp, names, needs, licences, list, places0, places, frees, i, good,
                         disk.faults == f0, data.refreshed - refreshed0)
    {
      places, frees := PromoteNext(disk, dir, temp, list, data, licences, i, names, needs, t0, places0, places, frees,
                                   good, f0, refreshed0);
      i := i + 1;
    }
    PromotionEnds(t0, disk.tree, dir, temp, names, needs, licences, list, places0, places, frees, i, good,
                  disk.faults == f0, data.refreshed - refreshed0);
  }

  lemma {:induction false} PromotionEnds(t0: Nodes, t: Nodes, dir: Path, temp: Path, names: seq<Name>,
                                         needs: Name -> bool, licences: Name -> Option<seq<Byte>>,
                                         list: seq<Option<Name>>, places0: seq<Place>, places: seq<Place>,
                                         frees: seq<nat>, i: nat, good: bool, quiet: bool, counted: int)
    requires Promotes(t0, t, dir, temp, names, needs, licences, list, places0, places, frees, i, good, quiet, counted)
    ensures SecondPhase(list, places0, places, frees, i) && CountBounds(places, i, counted)
    ensures AllAt(t0, t, dir, temp, names, places) && SameElsewhere(t0, t, dir, temp, names)
    ensures quiet && good ==> Counting(t0, dir, names, needs, licences, places, i, counted)
  {
    assert Promoting(t0, t, dir, temp, names, needs, licences, list, places0, places, frees, i, good, quiet, counted);
  }

  lemma {:induction false} PromotionStarts(t0: Nodes, t: Nodes, dir: Path, temp: Path, names: seq<Name>,
                                           needs: Name -> bool, licences: Name -> Option<seq<Byte>>,
                                           list: seq<Option<Name>>, places0: seq<Place>, frees0: seq<nat>, good: bool)
    requires dir != [] && temp != [] && FileTree.Apart(dir, temp) && Distinct(names)
    requires forall n :: n in names ==> dir + [n] in t0
    requires AllAt(t0, t, dir, temp, names, places0) && SameElsewhere(t0, t, dir, temp, names)
    requires MovedOut(t0, dir, names, needs, places0, |names|) && StringsListed(names, needs, list, frees0, |names|)
    requires good ==> Get(t, dir) == Some(Dir) && AllOut(t0, dir, names, needs, places0)
    ensures Handed(t0, dir, temp, names, needs, list, places0, good)
    ensures Promotes(t0, t, dir, temp, names, needs, licences, list, places0, places0, frees0, 0, good, true, 0)
  {
    assert places0[..0] == [];
  }

  /** dlc_callback_outer. At every exit each listed directory is at home, in the temporary directory or
      promoted, whole but for its work.bin, and its string was freed once; one that needed no refresh is
      untouched. Undisturbed, and with the temporary directory there, each that needed one is promoted,
      and counted, or restored: RestoredWhole says when it is whole. */
  method DlcOuter(disk: Disk, dir: Path, temp: Path, data: RefreshData, needs: Name -> bool,
                  licences: Name -> Option<seq<Byte>>)
    returns (ghost all: seq<Name>, ghost names: seq<Name>, ghost places: seq<Place>, ghost frees: seq<nat>)
    requires dir != [] && temp != [] && FileTree.Apart(dir, temp)
    modifies disk, data
    ensures disk.faults >= old(disk.faults) && data.refresh_pass == old(data.refresh_pass)
    ensures !old(data.refresh_pass) ==>
            disk.tree == old(disk.tree) && data.refreshed == old(data.refreshed) && names == []
    ensures Distinct(names) && forall n :: n in names ==> Get(old(disk.tree), dir + [n]) == Some(Dir) && !IsSystem(n)
    ensures AllAt(old(disk.tree), disk.tree, dir, temp, names, places)
            && SameElsewhere(old(disk.tree), disk.tree, dir, temp, names)
    ensures |frees| == |names| && forall k :: 0 <= k < |names| ==> frees[k] == 1
    ensures forall k :: 0 <= k < |names| && !needs(names[k]) ==> places[k] == AtHome(old(disk.tree), dir, names[k])
    ensures |places| == |names| && CountPromoted(places) <= data.refreshed - old(data.refreshed) <= |names|
    ensures disk.faults == old(disk.faults) && Get(old(disk.tree), dir) == Some(Dir)
            && Get(old(disk.tree), temp) == Some(Dir)
            && old(data.refresh_pass) ==>
              && Collects(old(disk.tree), dir, names, all)
              && Counting(old(disk.tree), dir, names, needs, licences, places, |names|,
                          data.refreshed - old(data.refreshed))
  {
    ghost var t0 := disk.tree;
    var found;
    found, all := Collect(disk, dir, data);
    names, places, frees := found, [], [];
    if data.refresh_pass {
      forall n | n in names ensures dir + [n] in disk.tree { assert Get(disk.tree, dir + [n]) == Some(Dir); }
      var list;
      ghost var places0;
      list, places0, frees := MoveAllOut(disk, dir, temp, found, needs);
      places, frees := PromoteAll(disk, dir, temp, list, data, licences, names, needs, t0, places0, frees);
      assert places[..|names|] == places;
    }
  }
}
