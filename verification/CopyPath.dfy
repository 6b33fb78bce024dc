/** copyFile and copyPath of src/file.c. */
module CopyPath {
  import opened Common
  import opened PathText
  import opened FileTree
  import opened Storage
  import opened Params
  import opened PathInfo
  import opened CopyRuns

  const TRANSFER_SIZE := 128 * 1024

  // ----- What may happen to one relative path of the destination -----

  /** At every exit: untouched, a directory made, a file copied, or a file whose copy was given
      up and removed; only if even that removal failed is a part of the file left. */
  ghost predicate CopyFate(t: Nodes, t': Nodes, src: Path, dst: Path, faulty: bool, r: Path) {
    var s, d, d' := At(t, src, r), At(t, dst, r), At(t', dst, r);
    || d' == d
    || (s == Some(Dir) && d == None && d' == s)
    || (&& s.Some? && s.value.File? && (d == None || d.value.File?)
        && (d' == s || d' == None || (faulty && d'.Some? && d'.value.File? && d'.value.data <= s.value.data)))
  }

  /** After an undisturbed success: the source's files, and the directories of both. */
  ghost predicate CopyOutcome(t: Nodes, t': Nodes, src: Path, dst: Path, r: Path) {
    var s, d := At(t, src, r), At(t, dst, r);
    At(t', dst, r) == if s == None || (s == Some(Dir) && d.Some?) then d else s
  }

  /** Nothing changes but at or below `dst`. */
  ghost predicate SameExceptBelow(t: Nodes, t': Nodes, dst: Path) {
    forall p :: !(dst <= p) ==> Get(t', p) == Get(t, p)
  }

  /** The guard lets a destination pass that lies above the source. What is promised then depends on
      this: no directory is copied into one above it. */
  ghost predicate Separate(t: Nodes, src: Path, dst: Path) {
    Apart(src, dst) || Get(t, src) != Some(Dir)
  }

  /** What both functions promise past their guards. `cost` is what the counter advanced by: never
      more than the whole source costs. */
  ghost predicate Copied(t: Nodes, t': Nodes, src: Path, dst: Path, faulty: bool, ret: int, cost: nat) {
    && SameExceptBelow(t, t', dst)
    && NewPathsShallow(t, t', src, dst)
    && (Separate(t, src, dst) ==>
          (forall r :: CopyFate(t, t', src, dst, faulty, r)) && cost <= Total(t, Below(t, src), CopyCost))
    && (Separate(t, src, dst) && !faulty && ret == 1 ==>
          (forall r :: CopyOutcome(t, t', src, dst, r)) && cost == Total(t, Below(t, src), CopyCost))
    && (Separate(t, src, dst) && !faulty && ret < 0 && src in t && ParentIsDir(t, dst) ==>
          exists r :: ClashAt(t, src, dst, r))
  }

  // ----- copyFile -----

  lemma {:induction false} FileTreeBelow(t: Tree, src: Path)
    requires src in t && t[src].File?
    ensures Below(t, src) == {src}
    ensures Total(t, Below(t, src), CopyCost) == |t[src].data|
    ensures forall r :: At(t, src, r) == if r == [] then Some(t[src]) else None
  {
    assert ParentIsDir(t, src);
    forall p | p in t && src <= p ensures p == src { Ancestors(t, src, p); }
    TotalWithout(t, {src}, CopyCost, src);
    assert {src} - {src} == {};
    assert src + [] == src;
    forall r | r != [] ensures At(t, src, r) == None { assert src + r != src && src <= src + r; }
  }

  /** Every exit of copyFile, once both files were opened. */
  lemma {:induction false} FileCopied(t: Tree, t': Tree, src: Path, dst: Path, faulty: bool, ret: int, cost: nat)
    requires src in t && t[src].File? && Get(t, dst) != Some(Dir) && ParentIsDir(t, dst)
    requires forall p :: p != dst ==> Get(t', p) == Get(t, p)
    requires ret >= 0 || faulty
    requires cost <= |t[src].data|
    requires if ret == 1 then Get(t', dst) == Some(t[src]) && cost == |t[src].data|
             else Get(t', dst) == None
                  || (faulty && dst in t' && t'[dst].File? && t'[dst].data <= t[src].data)
    ensures Copied(t, t', src, dst, faulty, ret, cost)
  {
    FileTreeBelow(t, src);
    assert dst + [] == dst;
    forall r | r != [] ensures At(t', dst, r) == At(t, dst, r) {
      assert Get(t', dst + r) == Get(t, dst + r);
    }
    forall p | p in t' && p !in t ensures p == dst { assert p != dst ==> Get(t', p) == Get(t, p); }
  }

  /** An exit that copies nothing. */
  lemma {:induction false} NothingCopied(t: Tree, src: Path, dst: Path, faulty: bool, ret: int)
    requires ret < 0
    requires faulty || src !in t || !ParentIsDir(t, dst) || ClashAt(t, src, dst, [])
    ensures Copied(t, t, src, dst, faulty, ret, 0)
  {
  }

  method CopyFile(disk: Disk, src: Path, dst: Path, param: Progress?) returns (ret: int, ghost cost: nat)
    requires src != [] && dst != []
    modifies disk, param
    ensures disk.faults >= old(disk.faults)
    ensures ret == ERR_IDENTICAL <==> Folded(src) == Folded(dst)
    ensures ret == ERR_SUBFOLDER <==> Folded(src) < Folded(dst)
    ensures !GuardPasses(Render(src), Render(dst)) ==>
              && disk.tree == old(disk.tree) && cost == 0
              && ret == if SameText(Render(src), Render(dst)) then ERR_IDENTICAL else ERR_SUBFOLDER
    ensures GuardPasses(Render(src), Render(dst)) ==>
              && ret <= 1 && ret != ERR_IDENTICAL && ret != ERR_SUBFOLDER
              && if Get(old(disk.tree), src) == Some(Dir) then ret < 0 && disk.tree == old(disk.tree) && cost == 0
                 else Copied(old(disk.tree), disk.tree, src, dst, disk.faults > old(disk.faults), ret, cost)
    ensures (ret == 0 ==> param != null && param.cancelled) && Stops(param, ret)
    ensures param != null ==> param.value == old(param.value) + cost
    ensures FileRun(old(disk.tree), src, dst, disk.tree, ret, disk.faults > old(disk.faults))
  {
    ghost var t0, f0 := disk.tree, disk.faults;
    cost := 0;
    GuardRejects(src, dst);
    if SameText(Render(src), Render(dst)) { return ERR_IDENTICAL, 0; }
    if Subfolder(Render(src), Render(dst)) { return ERR_SUBFOLDER, 0; }
    assert src + [] == src && dst + [] == dst;

    ret := disk.OpenRead(src);
    if ret < 0 {
      if Get(t0, src) != Some(Dir) { NothingCopied(t0, src, dst, disk.faults > f0, ret); }
      return;
    }
    ret := disk.OpenTruncate(dst);
    if ret < 0 {
      NothingCopied(t0, src, dst, disk.faults > f0, ret);
      return;
    }
    ret, cost := CopyBytes(disk, src, dst, param, t0);
  }

  /** Its loop, once the source is open and the destination empty. */
  method CopyBytes(disk: Disk, src: Path, dst: Path, param: Progress?, ghost t0: Tree)
      returns (ret: int, ghost cost: nat)
    requires src in t0 && t0[src].File? && Get(t0, dst) != Some(Dir) && ParentIsDir(t0, dst) && src != dst
    requires disk.tree == t0[dst := File([])]
    modifies disk, param
    ensures disk.faults >= old(disk.faults)
    ensures ret <= 1 && ret != ERR_IDENTICAL && ret != ERR_SUBFOLDER
    ensures Copied(t0, disk.tree, src, dst, disk.faults > old(disk.faults), ret, cost)
    ensures (ret == 0 ==> param != null && param.cancelled) && Stops(param, ret)
    ensures param != null ==> param.value == old(param.value) + cost
    ensures if ret == 1 then disk.tree == t0[dst := t0[src]] && disk.faults == old(disk.faults)
            else GivenUp(t0, src, dst, disk.tree, ret, disk.faults > old(disk.faults))
  {
    ghost var f0 := disk.faults;
    ghost var data := t0[src].data;
    var pos := 0;
    cost := 0;
    while true
      invariant disk.faults == f0 && cost == pos <= |data|
      invariant disk.tree == t0[dst := File(data[..pos])]
      invariant (param != null ==> param.value == old(param.value) + cost) && Stops(param, 1)
      decreases |data| - pos
    {
      var read, chunk := disk.Read(src, pos, TRANSFER_SIZE);
      if read == 0 { break; }
      if read < 0 {
        GiveUp(disk, t0, f0, src, dst, read, cost, pos);
        return read, cost;
      }
      var written := disk.Append(dst, chunk);
      if written < 0 {
        GiveUp(disk, t0, f0, src, dst, written, cost, pos);
        return written, cost;
      }
      assert data[..pos] + chunk == data[..pos + read];
      pos := pos + read;
      cost := pos;
      var cancel := Advance(param, read);
      if cancel {
        GiveUp(disk, t0, f0, src, dst, 0, cost, pos);
        return 0, cost;
      }
    }
    assert data[..pos] == data;
    FileCopied(t0, disk.tree, src, dst, false, 1, cost);
    return 1, cost;
  }

  /** sceIoRemove of an unfinished destination, before returning `ret`. */
  method GiveUp(disk: Disk, ghost t0: Tree, ghost f0: nat, src: Path, dst: Path, ghost ret: int, ghost cost: nat,
                ghost k: nat)
    requires src in t0 && t0[src].File? && Get(t0, dst) != Some(Dir) && ParentIsDir(t0, dst)
    requires k <= |t0[src].data| && disk.tree == t0[dst := File(t0[src].data[..k])]
    requires ((ret < 0 && disk.faults > f0) || (ret == 0 && disk.faults == f0)) && cost <= |t0[src].data|
    modifies disk
    ensures disk.faults >= old(disk.faults)
    ensures Copied(t0, disk.tree, src, dst, disk.faults > f0, ret, cost)
    ensures GivenUp(t0, src, dst, disk.tree, ret, disk.faults > f0)
  {
    var _ := disk.Remove(dst);
    assert t0[dst := File(t0[src].data[..k])] - {dst} == t0 - {dst};
    FileCopied(t0, disk.tree, src, dst, disk.faults > f0, ret, cost);
  }

  // ----- copyPath -----

  /** What has been copied after the entries `done`. */
  ghost predicate Progressed(t0: Nodes, t: Nodes, src: Path, dst: Path, faulty: bool, done: set<Name>, cost: nat) {
    && (forall r :: CopyFate(t0, t, src, dst, faulty, r))
    && (forall r :: r != [] && r[0] !in done ==> At(t, dst, r) == At(t0, dst, r))
    && cost <= CostAfter(t0, src, done)
    && (!faulty ==>
          && (forall r :: r == [] || r[0] in done ==> CopyOutcome(t0, t, src, dst, r))
          && cost == CostAfter(t0, src, done))
  }

  /** The loop invariant. (Over the one value of `u`, so that the loop does not take it apart.) */
  ghost predicate Copying(t0: Nodes, t: Nodes, src: Path, dst: Path, faulty: bool, done: set<Name>, cost: nat) {
    && SameExceptBelow(t0, t, dst)
    && NewPathsShallow(t0, t, src, dst)
    && (Apart(src, dst) ==>
          forall u {:trigger Progressed(t0, u, src, dst, faulty, done, cost)} :: u == t ==>
              Progressed(t0, u, src, dst, faulty, done, cost))
  }

  /** The cost of the directory `src` itself and of its entries `done`. */
  ghost function CostAfter(t: Nodes, src: Path, done: set<Name>): nat {
    DIRECTORY_SIZE + Total(t, CountedThrough(t, src, NoSkip, done), CopyCost)
  }

  lemma {:induction false} CostBound(t: Nodes, src: Path, done: set<Name>)
    requires Get(t, src) == Some(Dir)
    ensures CostAfter(t, src, done) <= Total(t, Below(t, src), CopyCost)
  {
    var through := CountedThrough(t, src, NoSkip, done);
    TotalSum(t, through, {src}, CopyCost);
    TotalWithout(t, {src}, CopyCost, src);
    assert {src} - {src} == {};
    TotalAtMost(t, through + {src}, Below(t, src), CopyCost);
  }

  lemma {:induction false} CopyingStarts(t: Tree, t1: Tree, src: Path, dst: Path)
    requires Get(t, src) == Some(Dir) && ParentIsDir(t, dst)
    requires t1 == if dst in t then t else t[dst := Dir]
    ensures Copying(t, t1, src, dst, false, {}, DIRECTORY_SIZE)
    ensures Copied(t, t1, src, dst, false, 0, DIRECTORY_SIZE)
  {
    assert src + [] == src && dst + [] == dst;
    forall r | r != [] ensures At(t1, dst, r) == At(t, dst, r) { assert dst + r != dst; }
    assert CountedThrough(t, src, NoSkip, {}) == {};
    CostBound(t, src, {});
    assert CopyOutcome(t, t1, src, dst, []);
  }

  lemma {:induction false} EntryFateCopied(t0: Tree, t1: Tree, t2: Tree, src: Path, dst: Path,
                        faulty1: bool, faulty2: bool, faulty: bool, done: set<Name>, n: Name)
    requires Apart(src, dst) && n !in done && (faulty1 || faulty2 ==> faulty)
    requires SameExceptBelow(t0, t1, dst) && SameExceptBelow(t1, t2, dst + [n])
    requires forall r :: CopyFate(t0, t1, src, dst, faulty1, r)
    requires forall r :: r != [] && r[0] !in done ==> At(t1, dst, r) == At(t0, dst, r)
    requires forall r :: CopyFate(t1, t2, src + [n], dst + [n], faulty2, r)
    ensures forall r :: CopyFate(t0, t2, src, dst, faulty, r)
    ensures forall r :: r != [] && r[0] !in done + {n} ==> At(t2, dst, r) == At(t0, dst, r)
  {
    forall r ensures CopyFate(t0, t2, src, dst, faulty, r)
                  && (r != [] && r[0] !in done + {n} ==> At(t2, dst, r) == At(t0, dst, r))
    {
      assert CopyFate(t0, t1, src, dst, faulty1, r);
      if r != [] && r[0] == n {
        assert r == [n] + r[1..];
        EntrySides(t0, t1, src, dst, done, n, r[1..]);
        AtStep(t2, dst, n, r[1..]);
        assert CopyFate(t1, t2, src + [n], dst + [n], faulty2, r[1..]);
      } else {
        NotThrough(dst, src, n, r);
        assert Get(t2, dst + r) == Get(t1, dst + r);
      }
    }
  }

  lemma {:induction false} EntrySides(t0: Tree, t1: Tree, src: Path, dst: Path, done: set<Name>, n: Name, r: Path)
    requires Apart(src, dst) && n !in done && SameExceptBelow(t0, t1, dst)
    requires forall r :: r != [] && r[0] !in done ==> At(t1, dst, r) == At(t0, dst, r)
    ensures At(t1, src + [n], r) == At(t0, src, [n] + r)
    ensures At(t1, dst + [n], r) == At(t0, dst, [n] + r)
  {
    AtStep(t1, src, n, r);
    AtStep(t1, dst, n, r);
    assert ([n] + r)[0] == n;
    PrefixesOfOne(src, dst, src + ([n] + r));
    assert Get(t1, src + ([n] + r)) == Get(t0, src + ([n] + r));
  }

  lemma {:induction false} EntryOutcomeCopied(t0: Tree, t1: Tree, t2: Tree, src: Path, dst: Path, done: set<Name>,
                                              n: Name)
    requires Apart(src, dst) && n !in done
    requires SameExceptBelow(t0, t1, dst) && SameExceptBelow(t1, t2, dst + [n])
    requires forall r :: r != [] && r[0] !in done ==> At(t1, dst, r) == At(t0, dst, r)
    requires forall r :: r == [] || r[0] in done ==> CopyOutcome(t0, t1, src, dst, r)
    requires forall r :: CopyOutcome(t1, t2, src + [n], dst + [n], r)
    ensures forall r :: r == [] || r[0] in done + {n} ==> CopyOutcome(t0, t2, src, dst, r)
  {
    forall r | r == [] || r[0] in done + {n} ensures CopyOutcome(t0, t2, src, dst, r) {
      if r != [] && r[0] == n {
        assert r == [n] + r[1..];
        EntrySides(t0, t1, src, dst, done, n, r[1..]);
        AtStep(t2, dst, n, r[1..]);
        assert CopyOutcome(t1, t2, src + [n], dst + [n], r[1..]);
      } else {
        assert CopyOutcome(t0, t1, src, dst, r);
        NotThrough(dst, src, n, r);
        assert Get(t2, dst + r) == Get(t1, dst + r);
      }
    }
  }

  lemma {:induction false} TotalAgrees(t: Nodes, t': Nodes, s: set<Path>, weight: Node -> nat)
    requires s <= t.Keys && s <= t'.Keys && forall p :: p in s ==> t[p] == t'[p]
    ensures Total(t, s, weight) == Total(t', s, weight)
    decreases s
  {
    if s != {} {
      var p :| p in s;
      TotalWithout(t, s, weight, p);
      TotalWithout(t', s, weight, p);
      TotalAgrees(t, t', s - {p}, weight);
    }
  }

  lemma {:induction false} EntryCost(t0: Tree, t1: Tree, src: Path, dst: Path, done: set<Name>, n: Name)
    requires Apart(src, dst) && n !in done && src + [n] in t0 && SameExceptBelow(t0, t1, dst)
    ensures CostAfter(t0, src, done + {n}) == CostAfter(t0, src, done) + Total(t1, Below(t1, src + [n]), CopyCost)
  {
    forall p | src + [n] <= p ensures Get(t1, p) == Get(t0, p) {
      assert src <= p;
      PrefixesOfOne(src, dst, p);
    }
    var entry := Below(t0, src + [n]);
    assert forall p :: p in entry ==> Get(t1, p) == Get(t0, p);
    assert forall p :: p in Below(t1, src + [n]) ==> Get(t1, p) == Get(t0, p);
    assert Below(t1, src + [n]) == entry;
    assert Counted(t0, src + [n], NoSkip) == entry;
    TotalAgrees(t0, t1, entry, CopyCost);
    EntryCounted(t0, src, NoSkip, done, n);
    TotalSum(t0, CountedThrough(t0, src, NoSkip, done), entry, CopyCost);
  }

  lemma {:induction false} CopyStep(t0: Tree, t1: Tree, t2: Tree, src: Path, dst: Path, faulty1: bool, faulty2: bool,
                 done: set<Name>, n: Name, ret: int, cost1: nat, cost2: nat)
    requires Apart(src, dst)
    requires dst != [] && n !in done && src + [n] in t0 && Get(t0, src) == Some(Dir)
    requires Copying(t0, t1, src, dst, faulty1, done, cost1)
    requires Copied(t1, t2, src + [n], dst + [n], faulty2, ret, cost2) && ret <= 1
    ensures if ret == 1 then Copying(t0, t2, src, dst, faulty1 || faulty2, done + {n}, cost1 + cost2)
            else Copied(t0, t2, src, dst, faulty1 || faulty2, ret, cost1 + cost2)
  {
    assert Progressed(t0, t1, src, dst, faulty1, done, cost1);
    StepFrame(t0, t1, t2, src, dst, n);
    ApartBelow(src, dst, n);
    EntryFateCopied(t0, t1, t2, src, dst, faulty1, faulty2, faulty1 || faulty2, done, n);
    EntryCost(t0, t1, src, dst, done, n);
    CostBound(t0, src, done + {n});
    if !faulty1 && !faulty2 {
      if ret == 1 {
        EntryOutcomeCopied(t0, t1, t2, src, dst, done, n);
      } else if ret < 0 {
        EntryClash(t0, t1, src, dst, done, n, cost1);
      }
    }
  }

  lemma {:induction false} StepFrame(t0: Tree, t1: Tree, t2: Tree, src: Path, dst: Path, n: Name)
    requires !(src <= dst) && src + [n] in t0
    requires SameExceptBelow(t0, t1, dst) && SameExceptBelow(t1, t2, dst + [n])
    requires NewPathsShallow(t0, t1, src, dst) && NewPathsShallow(t1, t2, src + [n], dst + [n])
    ensures SameExceptBelow(t0, t2, dst) && NewPathsShallow(t0, t2, src, dst)
  {
    ShallowSteps(t0, t1, t2, src, dst, n);
    forall p | !(dst <= p) ensures Get(t2, p) == Get(t0, p) {
      assert !(dst + [n] <= p);
      assert Get(t1, p) == Get(t0, p);
    }
  }

  lemma {:induction false} ApartBelow(src: Path, dst: Path, n: Name)
    requires Apart(src, dst)
    ensures Apart(src + [n], dst + [n])
  {
    assert src + [n] <= dst + [n] ==> src <= dst + [n];
    assert dst + [n] <= src + [n] ==> dst <= src + [n];
    PrefixesOfOne(src, dst, dst + [n]);
    PrefixesOfOne(src, dst, src + [n]);
  }

  /** An undisturbed failure of an entry comes from a file that meets a directory. */
  lemma {:induction false} EntryClash(t0: Tree, t1: Tree, src: Path, dst: Path, done: set<Name>, n: Name, cost: nat)
    requires Apart(src, dst) && dst != [] && n !in done && src + [n] in t0 && Get(t0, src) == Some(Dir)
    requires Copying(t0, t1, src, dst, false, done, cost)
    requires src + [n] in t1 && ParentIsDir(t1, dst + [n]) ==> exists r :: ClashAt(t1, src + [n], dst + [n], r)
    ensures exists r :: ClashAt(t0, src, dst, r)
  {
    assert Progressed(t0, t1, src, dst, false, done, cost);
    EntrySides(t0, t1, src, dst, done, n, []);
    assert At(t1, src + [n], []) == At(t0, src, [n] + []);
    assert src + [n] + [] == src + [n] && src + ([n] + []) == src + [n];
    if ParentIsDir(t1, dst + [n]) {
      var r :| ClashAt(t1, src + [n], dst + [n], r);
      EntrySides(t0, t1, src, dst, done, n, r);
      assert ClashAt(t0, src, dst, [n] + r);
    } else {
      assert (dst + [n])[..|dst|] == dst;
      assert CopyOutcome(t0, t1, src, dst, []);
      assert src + [] == src && dst + [] == dst;
      assert ClashAt(t0, src, dst, []);
    }
  }

  lemma {:induction false} CopyEnds(t0: Tree, t: Tree, src: Path, dst: Path, faulty: bool, faulty': bool,
                                    entries: seq<Entry>, i: nat, cost: nat)
    requires src != [] && Get(t0, src) == Some(Dir) && Lists(t0, src, entries) && i <= |entries|
    requires Copying(t0, t, src, dst, faulty, Done(entries, i), cost)
    requires (faulty ==> faulty') && (i == |entries| || faulty')
    ensures Copied(t0, t, src, dst, faulty', 1, cost)
  {
    assert Apart(src, dst) ==> Progressed(t0, t, src, dst, faulty, Done(entries, i), cost);
    forall r | Apart(src, dst) ensures CopyFate(t0, t, src, dst, faulty', r) {
      assert CopyFate(t0, t, src, dst, faulty, r);
    }
    CostBound(t0, src, Done(entries, i));
    if Apart(src, dst) && !faulty' {
        forall r ensures CopyOutcome(t0, t, src, dst, r) {
        if r != [] && r[0] !in Done(entries, |entries|) {
          assert src + [r[0]] !in t0 && src + [r[0]] <= src + r;
          if src + r in t0 { Ancestors(t0, src + [r[0]], src + r); }
        }
      }
      DirCounted(t0, src, NoSkip, entries);
      assert Counted(t0, src, NoSkip) == Below(t0, src);
      TotalSum(t0, CountedThrough(t0, src, NoSkip, Done(entries, |entries|)), {src}, CopyCost);
      TotalWithout(t0, {src}, CopyCost, src);
      assert {src} - {src} == {};
    }
  }

  lemma {:induction false} FileEntry(t0: Tree, t1: Tree, src: Path, dst: Path, faulty: bool, done: set<Name>, n: Name,
                                     cost: nat)
    requires n !in done && Copying(t0, t1, src, dst, faulty, done, cost) && Apart(src, dst)
    ensures Get(t1, src + [n]) == Get(t0, src + [n])
  {
    PrefixesOfOne(src, dst, src + [n]);
  }

  /** The step, nested or not. */
  lemma {:induction false} EntryStep(t0: Tree, t1: Tree, t2: Tree, src: Path, dst: Path, faulty: bool, faulty2: bool,
                                     faulty': bool, done: set<Name>, n: Name, ret: int, cost: nat, cost': nat)
    requires dst != [] && n !in done && src + [n] in t0 && Get(t0, src) == Some(Dir) && !(src <= dst)
    requires Copying(t0, t1, src, dst, faulty, done, cost)
    requires SameExceptBelow(t1, t2, dst + [n]) && NewPathsShallow(t1, t2, src + [n], dst + [n])
    requires Apart(src, dst) ==> Copied(t1, t2, src + [n], dst + [n], faulty2, ret, cost')
    requires faulty' == (faulty || faulty2) && ret <= 1
    ensures ret == 1 ==> Copying(t0, t2, src, dst, faulty', done + {n}, cost + cost')
    ensures ret <= 0 ==> Copied(t0, t2, src, dst, faulty', ret, cost + cost')
  {
    if Apart(src, dst) {
      CopyStep(t0, t1, t2, src, dst, faulty, faulty2, done, n, ret, cost, cost');
    } else {
      StepFrame(t0, t1, t2, src, dst, n);
    }
  }

  /** copyPath or copyFile, by the kind that the listing has. */
  method CopyOne(disk: Disk, src: Path, dst: Path, e: Entry, param: Progress?) returns (ret: int, ghost cost: nat)
    requires src != [] && dst != [] && GuardPasses(Render(src + [e.name]), Render(dst + [e.name]))
    modifies disk, param
    ensures disk.faults >= old(disk.faults)
    ensures ret <= 1 && ret != ERR_IDENTICAL && ret != ERR_SUBFOLDER
    ensures SameExceptBelow(old(disk.tree), disk.tree, dst + [e.name])
    ensures NewPathsShallow(old(disk.tree), disk.tree, src + [e.name], dst + [e.name])
    ensures Get(old(disk.tree), src + [e.name]) == Some(e.node) ==>
              Copied(old(disk.tree), disk.tree, src + [e.name], dst + [e.name], disk.faults > old(disk.faults), ret,
                     cost)
    ensures EntryRun(old(disk.tree), src, dst, e, disk.tree, ret, disk.faults > old(disk.faults))
    ensures (ret == 0 ==> param != null && param.cancelled) && Stops(param, ret)
    ensures param != null ==> param.value == old(param.value) + cost
    decreases Height(disk.tree, src + [e.name]), 5
  {
    if e.node.Dir? {
      ret, cost := CopyPath(disk, src + [e.name], dst + [e.name], param);
    } else {
      ret, cost := CopyFile(disk, src + [e.name], dst + [e.name], param);
    }
  }

  /** One entry of the directory loop, after `i` entries with the names `done` at a cost of `cost1`, since the
      tree `t1`. */
  method CopyEntry(disk: Disk, src: Path, dst: Path, entries: seq<Entry>, i: nat, param: Progress?,
                   ghost t0: Tree, ghost t1: Tree, ghost f0: nat, ghost done: set<Name>, ghost cost1: nat)
    returns (ret: int, ghost cost: nat)
    requires src != [] && dst != [] && GuardPasses(Render(src), Render(dst)) && !(src <= dst)
    requires Get(t0, src) == Some(Dir) && Lists(t0, src, entries) && i < |entries| && done == Done(entries, i)
    requires disk.faults >= f0 && Copying(t0, disk.tree, src, dst, disk.faults > f0, done, cost1)
    requires EntriesRan(t1, src, dst, entries, i, disk.tree, 1, disk.faults > f0)
    modifies disk, param
    ensures disk.faults >= old(disk.faults)
    ensures ret <= 1 && ret != ERR_IDENTICAL && ret != ERR_SUBFOLDER
    ensures ret == 1 ==>
              && Copying(t0, disk.tree, src, dst, disk.faults > f0, done + {entries[i].name}, cost)
              && EntriesRan(t1, src, dst, entries, i + 1, disk.tree, 1, disk.faults > f0)
    ensures ret <= 0 ==>
              && Copied(t0, disk.tree, src, dst, disk.faults > f0, ret, cost)
              && LoopRan(t1, src, dst, entries, disk.tree, ret, disk.faults > f0)
    ensures (ret == 0 ==> param != null && param.cancelled) && Stops(param, ret)
    ensures param != null ==> param.value + cost1 == old(param.value) + cost
    decreases Height(t0, src), 0
  {
    ghost var t, f1 := disk.tree, disk.faults;
    var e := entries[i];
    NotYetDone(t0, src, entries, i);
    RecursionShrinks(t0, t, src, dst, e.name);
    GuardForEntry(src, dst, e.name);
    if Apart(src, dst) { FileEntry(t0, t, src, dst, f1 > f0, done, e.name, cost1); }
    ret, cost := CopyOne(disk, src, dst, e, param);
    EntryStep(t0, t, disk.tree, src, dst, f1 > f0, disk.faults > f1, disk.faults > f0, done, e.name, ret, cost1, cost);
    cost := cost1 + cost;
    NextEntryRun(t1, t, disk.tree, src, dst, entries, i, ret, f1 > f0, disk.faults > f1);
    if ret <= 0 { LoopOver(t1, disk.tree, src, dst, entries, i + 1, ret, disk.faults > f0, disk.faults > f0); }
  }

  /** The directory loop, from the tree with the destination directory on. */
  method CopyEntries(disk: Disk, src: Path, dst: Path, entries: seq<Entry>, param: Progress?,
                     ghost t0: Tree, ghost f0: nat)
    returns (ret: int, ghost cost: nat)
    requires src != [] && dst != [] && GuardPasses(Render(src), Render(dst)) && !(src <= dst)
    requires Get(t0, src) == Some(Dir) && Lists(t0, src, entries) && disk.faults == f0
    requires Copying(t0, disk.tree, src, dst, false, {}, DIRECTORY_SIZE)
    modifies disk, param
    ensures disk.faults >= f0
    ensures ret <= 1 && ret != ERR_IDENTICAL && ret != ERR_SUBFOLDER
    ensures Copied(t0, disk.tree, src, dst, disk.faults > f0, ret, cost)
    ensures LoopRan(old(disk.tree), src, dst, entries, disk.tree, ret, disk.faults > f0)
    ensures (ret == 0 ==> param != null && param.cancelled) && Stops(param, ret)
    ensures param != null ==> param.value + DIRECTORY_SIZE == old(param.value) + cost
    decreases Height(t0, src), 1
  {
    cost := DIRECTORY_SIZE;
    var i := 0;
    ghost var f, done, t1 := f0, {}, disk.tree;
    FirstEntryRun(t1, src, dst, entries);
    while i < |entries|
      invariant i <= |entries| && disk.faults == f >= f0 && done == Done(entries, i)
      invariant Copying(t0, disk.tree, src, dst, f > f0, done, cost)
      invariant EntriesRan(t1, src, dst, entries, i, disk.tree, 1, f > f0)
      invariant (param != null ==> param.value + DIRECTORY_SIZE == old(param.value) + cost) && Stops(param, 1)
    {
      var failed := disk.DreadFails();
      if failed { break; }
      ret, cost := CopyEntry(disk, src, dst, entries, i, param, t0, t1, f0, done, cost);
      if ret <= 0 { return; }
      f, done := disk.faults, done + {entries[i].name};
      i := i + 1;
    }
    CopyEnds(t0, disk.tree, src, dst, f > f0, disk.faults > f0, entries, i, cost);
    LoopOver(t1, disk.tree, src, dst, entries, i, 1, f > f0, disk.faults > f0);
    ret := 1;
  }

  method CopyPath(disk: Disk, src: Path, dst: Path, param: Progress?) returns (ret: int, ghost cost: nat)
    requires src != [] && dst != []
    modifies disk, param
    ensures disk.faults >= old(disk.faults)
    ensures ret == ERR_IDENTICAL <==> Folded(src) == Folded(dst)
    ensures ret == ERR_SUBFOLDER <==> Folded(src) < Folded(dst)
    ensures !GuardPasses(Render(src), Render(dst)) ==> disk.tree == old(disk.tree) && cost == 0
    ensures GuardPasses(Render(src), Render(dst)) ==>
              && ret <= 1 && ret != ERR_IDENTICAL && ret != ERR_SUBFOLDER
              && Copied(old(disk.tree), disk.tree, src, dst, disk.faults > old(disk.faults), ret, cost)
    ensures CopyRun(old(disk.tree), src, dst, disk.tree, ret, disk.faults > old(disk.faults))
    ensures (ret == 0 ==> param != null && param.cancelled) && Stops(param, ret)
    ensures param != null ==> param.value == old(param.value) + cost
    decreases Height(disk.tree, src), 4
  {
    GuardRejects(src, dst);
    if SameText(Render(src), Render(dst)) { return ERR_IDENTICAL, 0; }
    if Subfolder(Render(src), Render(dst)) { return ERR_SUBFOLDER, 0; }
    ret, cost := CopyNode(disk, src, dst, param);
  }

  /** Past the guard. */
  method CopyNode(disk: Disk, src: Path, dst: Path, param: Progress?) returns (ret: int, ghost cost: nat)
    requires src != [] && dst != [] && GuardPasses(Render(src), Render(dst))
    modifies disk, param
    ensures disk.faults >= old(disk.faults)
    ensures ret <= 1 && ret != ERR_IDENTICAL && ret != ERR_SUBFOLDER
    ensures Copied(old(disk.tree), disk.tree, src, dst, disk.faults > old(disk.faults), ret, cost)
    ensures CopyRun(old(disk.tree), src, dst, disk.tree, ret, disk.faults > old(disk.faults))
    ensures (ret == 0 ==> param != null && param.cancelled) && Stops(param, ret)
    ensures param != null ==> param.value == old(param.value) + cost
    decreases Height(disk.tree, src), 3
  {
    ghost var t0 := disk.tree;
    if src <= dst { BelowFailsGuard(src, dst); assert false; }

    var isDir, entries := disk.Dopen(src);
    if isDir {
      ret, cost := CopyDir(disk, src, dst, entries, param);
    } else {
      ret, cost := CopyFile(disk, src, dst, param);
      if Get(t0, src) == Some(Dir) { NothingCopied(t0, src, dst, true, ret); }
    }
  }

  /** A directory that could be opened. */
  method CopyDir(disk: Disk, src: Path, dst: Path, entries: seq<Entry>, param: Progress?)
    returns (ret: int, ghost cost: nat)
    requires src != [] && dst != [] && GuardPasses(Render(src), Render(dst)) && !(src <= dst)
    requires Get(disk.tree, src) == Some(Dir) && Lists(disk.tree, src, entries)
    modifies disk, param
    ensures disk.faults >= old(disk.faults)
    ensures ret <= 1 && ret != ERR_IDENTICAL && ret != ERR_SUBFOLDER
    ensures Copied(old(disk.tree), disk.tree, src, dst, disk.faults > old(disk.faults), ret, cost)
    ensures CopyRun(old(disk.tree), src, dst, disk.tree, ret, disk.faults > old(disk.faults))
    ensures (ret == 0 ==> param != null && param.cancelled) && Stops(param, ret)
    ensures param != null ==> param.value == old(param.value) + cost
    decreases Height(disk.tree, src), 2
  {
    ghost var t0, f0 := disk.tree, disk.faults;
    assert dst in t0 ==> ParentIsDir(t0, dst);
    ret := disk.Mkdir(dst);
    if ret < 0 && ret != EEXIST {
      NothingCopied(t0, src, dst, disk.faults > f0, ret);
      return ret, 0;
    }
    CopyingStarts(t0, disk.tree, src, dst);
    var cancel := Advance(param, DIRECTORY_SIZE);
    if cancel { return 0, DIRECTORY_SIZE; }
    ghost var t1 := disk.tree;
    ret, cost := CopyEntries(disk, src, dst, entries, param, t0, f0);
    DirRun(t0, t1, disk.tree, src, dst, entries, ret, disk.faults > f0);
  }

  // ----- What the contract means -----

  /** Without a clash of kinds a completed copy overrides the destination by the source, byte for
      byte, and the source is as it was. */
  lemma {:induction false} CopyOverrides(t: Tree, t': Nodes, src: Path, dst: Path, cost: nat)
    requires src != [] && !(src <= dst) && Separate(t, src, dst) && Copied(t, t', src, dst, false, 1, cost)
    requires forall r :: !ClashAt(t, src, dst, r)
    ensures forall r :: At(t', dst, r) == if At(t, src, r).Some? then At(t, src, r) else At(t, dst, r)
    ensures forall r :: At(t', src, r) == At(t, src, r)
  {
    forall r ensures At(t', dst, r) == if At(t, src, r).Some? then At(t, src, r) else At(t, dst, r) {
      assert CopyOutcome(t, t', src, dst, r) && !ClashAt(t, src, dst, r);
    }
    SourceKept(t, t', src, dst, false, 1, cost);
  }

  /** No exit changes the source. */
  lemma {:induction false} SourceKept(t: Tree, t': Nodes, src: Path, dst: Path, faulty: bool, ret: int, cost: nat)
    requires src != [] && !(src <= dst) && Separate(t, src, dst) && Copied(t, t', src, dst, faulty, ret, cost)
    ensures forall r :: At(t', src, r) == At(t, src, r)
  {
    forall r ensures At(t', src, r) == At(t, src, r) {
      PrefixesOfOne(src, dst, src + r);
      if dst <= src + r {
        var r' := (src + r)[|dst|..];
        assert dst + r' == src + r;
        assert CopyFate(t, t', src, dst, faulty, r');
        if src + r' in t { Ancestors(t, src, src + r'); }
      } else {
        assert Get(t', src + r) == Get(t, src + r);
      }
    }
  }

  /** No exit touches a destination path that the source does not have. */
  lemma {:induction false} StrangersKept(t: Nodes, t': Nodes, src: Path, dst: Path, faulty: bool, ret: int, cost: nat,
                                         r: Path)
    requires Separate(t, src, dst) && Copied(t, t', src, dst, faulty, ret, cost) && At(t, src, r) == None
    ensures At(t', dst, r) == At(t, dst, r)
  {
    assert CopyFate(t, t', src, dst, faulty, r);
  }

  /** The progress maximum of a copy is what getPathInfo reports for the same tree. */
  lemma {:induction false} CopyCostAgrees(t: Nodes, t': Nodes, src: Path, dst: Path, cost: nat)
    requires Separate(t, src, dst) && Copied(t, t', src, dst, false, 1, cost)
    ensures var info := Plus(Counts(0, 0, 0), t, Counted(t, src, NoSkip));
            cost == info.size + 4096 * info.folders
  {
    CountsEverything(t, src);
    CountersAgree(t, Below(t, src));
  }
}
