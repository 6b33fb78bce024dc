/** What copyPath and copyFile of src/file.c can do: every run, over every order in which directories may
    be listed, whatever calls the device fails and whenever the user cancels. */
module CopyRuns {
  import opened Common
  import opened PathText
  import opened FileTree
  import opened Storage

  /** copyFile; `faulty` tells whether the device failed some call. */
  ghost predicate FileRun(t: Nodes, src: Path, dst: Path, t': Nodes, ret: int, faulty: bool) {
    && src != [] && dst != []
    && if SameText(Render(src), Render(dst)) then t' == t && ret == ERR_IDENTICAL && !faulty
       else if Subfolder(Render(src), Render(dst)) then t' == t && ret == ERR_SUBFOLDER && !faulty
       else
         || (t' == t && ret < 0 && (faulty || !CanCopy(t, src, dst)))  // a file could not be opened
         || (CanCopy(t, src, dst) && t' == t[dst := t[src]] && ret == 1 && !faulty)
         || (CanCopy(t, src, dst) && GivenUp(t, src, dst, t', ret, faulty))
  }

  predicate CanCopy(t: Nodes, src: Path, dst: Path) {
    src in t && t[src].File? && ParentIsDir(t, dst) && !(dst in t && t[dst].Dir?)
  }

  /** After a failure, or when the user cancels, what was copied is removed, unless the device refuses that. */
  ghost predicate GivenUp(t: Nodes, src: Path, dst: Path, t': Nodes, ret: int, faulty: bool)
    requires CanCopy(t, src, dst)
  {
    && ret <= 0
    && (|| (t' == t - {dst} && faulty == (ret < 0))
        || (faulty && exists k: nat :: k <= |t[src].data| && t' == t[dst := File(t[src].data[..k])]))
  }

  /** A call of copyPath on tree `t` may leave tree `t'` and return `ret`. */
  least predicate CopyRun(t: Tree, src: Path, dst: Path, t': Tree, ret: int, faulty: bool)
  {
    && src != [] && dst != []
    && if SameText(Render(src), Render(dst)) then t' == t && ret == ERR_IDENTICAL && !faulty
       else if Subfolder(Render(src), Render(dst)) then t' == t && ret == ERR_SUBFOLDER && !faulty
       else if Get(t, src) != Some(Dir) then FileRun(t, src, dst, t', ret, faulty)
       else
         || (t' == t && ret < 0 && (faulty || !CanMake(t, dst)))
         || (&& CanMake(t, dst)
             && exists entries, i: nat, t1: Tree, f1 ::
                  && t1 == Made(t, dst) && Lists(t, src, entries)
                  && EntriesRun(t1, src, dst, entries, i, t', ret, f1)
                  && LoopLeft(|entries|, i, ret, f1, faulty))
         || (CanMake(t, dst) && t' == Made(t, dst) && ret == 0 && !faulty)  // cancelled before the first entry
  }

  predicate CanMake(t: Nodes, dst: Path) { dst in t || ParentIsDir(t, dst) }

  function Made(t: Nodes, dst: Path): Nodes { if dst in t then t else t[dst := Dir] }

  /** The loop may leave `t'` after the first `i` entries, the last of which returned `ret`. */
  least predicate EntriesRun(t: Tree, src: Path, dst: Path, entries: seq<Entry>, i: nat, t': Tree, ret: int,
                             faulty: bool)
  {
    if i == 0 || i > |entries| then i == 0 && t' == t && ret == 1 && !faulty
    else
      var k := i - 1;
      exists t1: Tree, f1, f2 ::
        && EntriesRun(t, src, dst, entries, k, t1, 1, f1) && EntryRun(t1, src, dst, entries[k], t', ret, f2)
        && faulty == (f1 || f2)
  }

  /** One entry: copied as a directory or as a file. */
  least predicate EntryRun(t: Tree, src: Path, dst: Path, e: Entry, t': Tree, ret: int, faulty: bool)
  {
    if e.node.Dir? then CopyRun(t, src + [e.name], dst + [e.name], t', ret, faulty)
    else FileRun(t, src + [e.name], dst + [e.name], t', ret, faulty)
  }

  // ----- How the runs are built up -----

  /** The same, over the one value of `u`, so that no loop takes it apart. */
  ghost predicate EntriesRan(t: Tree, src: Path, dst: Path, entries: seq<Entry>, i: nat, t': Tree, ret: int,
                             faulty: bool) {
    forall u: Tree {:trigger EntriesRun(t, src, dst, entries, i, u, ret, faulty)} :: u == t' ==>
        EntriesRun(t, src, dst, entries, i, u, ret, faulty)
  }

  lemma {:induction false} FirstEntryRun(t: Tree, src: Path, dst: Path, entries: seq<Entry>)
    ensures EntriesRan(t, src, dst, entries, 0, t, 1, false)
  {
  }

  lemma {:induction false} NextEntryRun(t: Tree, t1: Tree, t2: Tree, src: Path, dst: Path,
                                        entries: seq<Entry>, i: nat, ret: int, f1: bool, f2: bool)
    requires i < |entries| && EntriesRan(t, src, dst, entries, i, t1, 1, f1)
    requires EntryRun(t1, src, dst, entries[i], t2, ret, f2)
    ensures EntriesRan(t, src, dst, entries, i + 1, t2, ret, f1 || f2)
  {
    assert EntriesRun(t, src, dst, entries, i, t1, 1, f1);
  }

  lemma {:induction false} LastEntryRun(t: Tree, t2: Tree, src: Path, dst: Path, entries: seq<Entry>, i: nat, ret: int,
                                        faulty: bool) returns (t1: Tree, f1: bool, f2: bool)
    requires EntriesRan(t, src, dst, entries, i, t2, ret, faulty)
    ensures i == 0 ==> t2 == t && ret == 1 && !faulty
    ensures i > 0 ==>
              && i <= |entries| && EntriesRan(t, src, dst, entries, i - 1, t1, 1, f1)
              && EntryRun(t1, src, dst, entries[i - 1], t2, ret, f2) && faulty == (f1 || f2)
  {
    assert EntriesRun(t, src, dst, entries, i, t2, ret, faulty);
    t1, f1, f2 := t, false, false;
    if i > 0 {
      var k := i - 1;
      t1, f1, f2 :| EntriesRun(t, src, dst, entries, k, t1, 1, f1) && EntryRun(t1, src, dst, entries[k], t2, ret, f2)
        && faulty == (f1 || f2);
    }
  }

  lemma {:induction false} LoopOver(t: Tree, t': Tree, src: Path, dst: Path, entries: seq<Entry>, i: nat, ret: int,
                                    f1: bool, faulty: bool)
    requires EntriesRan(t, src, dst, entries, i, t', ret, f1) && LoopLeft(|entries|, i, ret, f1, faulty)
    ensures LoopRan(t, src, dst, entries, t', ret, faulty)
  {
  }

  /** The loop of a directory is over, or broke off. */
  ghost predicate LoopRan(t: Tree, src: Path, dst: Path, entries: seq<Entry>, t': Tree, ret: int, faulty: bool) {
    exists i: nat, f1 :: EntriesRan(t, src, dst, entries, i, t', ret, f1) && LoopLeft(|entries|, i, ret, f1, faulty)
  }

  /** A copy of a directory that the guard lets pass. */
  lemma {:induction false} DirRun(t: Tree, t1: Tree, t2: Tree, src: Path, dst: Path, entries: seq<Entry>, ret: int,
                                  faulty: bool)
    requires src != [] && dst != [] && GuardPasses(Render(src), Render(dst))
    requires Get(t, src) == Some(Dir) && CanMake(t, dst) && t1 == Made(t, dst)
    requires Lists(t, src, entries) && LoopRan(t1, src, dst, entries, t2, ret, faulty)
    ensures CopyRun(t, src, dst, t2, ret, faulty)
  {
    var i: nat, f1 :| EntriesRan(t1, src, dst, entries, i, t2, ret, f1) && LoopLeft(|entries|, i, ret, f1, faulty);
    assert EntriesRun(t1, src, dst, entries, i, t2, ret, f1);
  }
}
