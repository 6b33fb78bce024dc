/** What movePath of src/file.c can do: every run, over every order in which directories may be listed
    and whatever calls the device fails. */
module MoveRuns {
  import opened Common
  import opened PathText
  import opened FileTree
  import opened Storage

  datatype Flags = Flags(integrate: bool, replace: bool)

  /** A call on tree `t` may leave tree `t'` and return `ret`; `faulty` tells whether the device failed
      some call. */
  least predicate MoveRun(t: Tree, src: Path, dst: Path, flags: Flags, t': Tree, ret: int, faulty: bool)
  {
    && src != [] && dst != []
    && if SameText(Render(src), Render(dst)) then t' == t && ret == ERR_IDENTICAL && !faulty
       else if Subfolder(Render(src), Render(dst)) then t' == t && ret == ERR_SUBFOLDER && !faulty
       else
         || PlainRun(t, src, dst, flags, t', ret, faulty)
         || (&& Get(t, src) == Some(Dir) && Get(t, dst) == Some(Dir) && flags.integrate
             && exists t1: Tree, r, f1 ::
                  MergeRun(t, src, dst, flags, t1, r, f1) && ClosesTo(t1, src, t', r, ret, f1, faulty))
  }

  /** The runs that do not come to merge directories. */
  ghost predicate PlainRun(t: Tree, src: Path, dst: Path, flags: Flags, t': Tree, ret: int, faulty: bool) {
    || (faulty && t' == t && ret == 1)  // the device refused the first rename
    || (CanRename(t, src, dst) && t' == Renamed(t, src, dst) && ret == 1 && !faulty)
    || (&& !CanRename(t, src, dst)
        && if src !in t || dst !in t || !(flags.integrate || flags.replace) then t' == t && ret == 1 && !faulty
           else
             || (faulty && t' == t && ret == EIO)  // it refused a sceIoGetstat
             || if t[src].Dir? != t[dst].Dir? then t' == t && ret == ERR_INVALID_TYPE && !faulty
                else if t[src].File? && flags.replace then ReplaceRun(t, src, dst, t', ret, faulty)
                else !(t[src].Dir? && flags.integrate) && t' == t && ret == 1 && !faulty)
  }

  /** The destination file is removed, and then the source renamed; the device may refuse either. */
  ghost predicate ReplaceRun(t: Tree, src: Path, dst: Path, t': Tree, ret: int, faulty: bool) {
    var t1 := t - {dst};
    || (WellFormed(t1) && t' == Renamed(t1, src, dst) && ret == 1 && !faulty)
    || (t' == t1 && ret == EIO && faulty)
    || (t' == t && ret < 0 && faulty)
  }

  /** The directory loop, which stops at the first entry that does not return success; the device may
      refuse to open the directory, or break off its listing. */
  least predicate MergeRun(t: Tree, src: Path, dst: Path, flags: Flags, t': Tree, ret: int, faulty: bool)
  {
    || (faulty && t' == t && ret == EIO)
    || exists entries, i: nat, f1 ::
         && Lists(t, src, entries) && EntriesRun(t, src, dst, flags, entries, i, t', ret, f1)
         && LoopLeft(|entries|, i, ret, f1, faulty)
  }

  /** The loop may leave `t'` after the first `i` entries, the last of which returned `ret`. */
  least predicate EntriesRun(t: Tree, src: Path, dst: Path, flags: Flags, entries: seq<Entry>, i: nat, t': Tree,
                             ret: int, faulty: bool)
  {
    if i == 0 || i > |entries| then i == 0 && t' == t && ret == 1 && !faulty
    else
      var k, n := i - 1, entries[i - 1].name;
      exists t1: Tree, f1, f2 ::
        && EntriesRun(t, src, dst, flags, entries, k, t1, 1, f1)
        && MoveRun(t1, src + [n], dst + [n], flags, t', ret, f2)
        && faulty == (f1 || f2)
  }

  /** The closing sceIoRmdir. */
  ghost function Closed(t: Nodes, src: Path): Nodes {
    if Get(t, src) == Some(Dir) && Below(t, src) == {src} then t - {src} else t
  }

  ghost predicate ClosesTo(t1: Tree, src: Path, t': Tree, r: int, ret: int, f1: bool, faulty: bool) {
    if r <= 0 then t' == t1 && ret == r && faulty == f1
    else ret == 1 && ((faulty && t' == t1) || (faulty == f1 && t' == Closed(t1, src)))
  }

  // ----- How the runs are built up -----

  /** The same, over the one value of `u`, so that no loop takes it apart. */
  ghost predicate EntriesRan(t: Tree, src: Path, dst: Path, flags: Flags, entries: seq<Entry>, i: nat, t': Tree,
                             ret: int, faulty: bool)
  {
    forall u: Tree {:trigger EntriesRun(t, src, dst, flags, entries, i, u, ret, faulty)} :: u == t' ==>
        EntriesRun(t, src, dst, flags, entries, i, u, ret, faulty)
  }

  lemma {:induction false} FirstEntryRun(t: Tree, src: Path, dst: Path, flags: Flags, entries: seq<Entry>)
    ensures EntriesRan(t, src, dst, flags, entries, 0, t, 1, false)
  {
  }

  lemma {:induction false} NextEntryRun(t: Tree, t1: Tree, t2: Tree, src: Path, dst: Path, flags: Flags,
                                        entries: seq<Entry>, i: nat, ret: int, f1: bool, f2: bool)
    requires i < |entries| && EntriesRan(t, src, dst, flags, entries, i, t1, 1, f1)
    requires MoveRun(t1, src + [entries[i].name], dst + [entries[i].name], flags, t2, ret, f2)
    ensures EntriesRan(t, src, dst, flags, entries, i + 1, t2, ret, f1 || f2)
  {
    assert EntriesRun(t, src, dst, flags, entries, i, t1, 1, f1);
  }

  lemma {:induction false} LastEntryRun(t: Tree, t2: Tree, src: Path, dst: Path, flags: Flags, entries: seq<Entry>,
                                        i: nat, ret: int, faulty: bool) returns (t1: Tree, f1: bool, f2: bool)
    requires EntriesRan(t, src, dst, flags, entries, i, t2, ret, faulty)
    ensures i == 0 ==> t2 == t && ret == 1 && !faulty
    ensures i > 0 ==>
              && i <= |entries| && EntriesRan(t, src, dst, flags, entries, i - 1, t1, 1, f1)
              && MoveRun(t1, src + [entries[i - 1].name], dst + [entries[i - 1].name], flags, t2, ret, f2)
              && faulty == (f1 || f2)
  {
    assert EntriesRun(t, src, dst, flags, entries, i, t2, ret, faulty);
    t1, f1, f2 := t, false, false;
    if i > 0 {
      var k, n := i - 1, entries[i - 1].name;
      t1, f1, f2 :| EntriesRun(t, src, dst, flags, entries, k, t1, 1, f1)
        && MoveRun(t1, src + [n], dst + [n], flags, t2, ret, f2)
        && faulty == (f1 || f2);
    }
  }

  /** The loop after all its entries, or after it broke off. */
  lemma {:induction false} LoopOver(t: Tree, t': Tree, src: Path, dst: Path, flags: Flags, entries: seq<Entry>, i: nat,
                                    ret: int, f1: bool, faulty: bool)
    requires Lists(t, src, entries) && EntriesRan(t, src, dst, flags, entries, i, t', ret, f1)
    requires LoopLeft(|entries|, i, ret, f1, faulty)
    ensures MergeRun(t, src, dst, flags, t', ret, faulty)
  {
    assert EntriesRun(t, src, dst, flags, entries, i, t', ret, f1);
  }

  /** A merge of two directories that the guard lets pass. */
  lemma {:induction false} MergedRun(t: Tree, t1: Tree, t2: Tree, src: Path, dst: Path, flags: Flags, r: int, ret: int,
                                     f1: bool, faulty: bool)
    requires src != [] && dst != [] && GuardPasses(Render(src), Render(dst)) && flags.integrate
    requires Get(t, src) == Some(Dir) && Get(t, dst) == Some(Dir) && MergeRun(t, src, dst, flags, t1, r, f1)
    requires ClosesTo(t1, src, t2, r, ret, f1, faulty)
    ensures MoveRun(t, src, dst, flags, t2, ret, faulty)
  {
  }

  /** Any other run past the guard. */
  lemma {:induction false} PlainRuns(t: Tree, src: Path, dst: Path, flags: Flags, t': Tree, ret: int, faulty: bool)
    requires src != [] && dst != [] && GuardPasses(Render(src), Render(dst))
    requires PlainRun(t, src, dst, flags, t', ret, faulty)
    ensures MoveRun(t, src, dst, flags, t', ret, faulty)
  {
  }
}
