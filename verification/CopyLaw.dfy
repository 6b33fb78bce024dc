/** The law of copyPath over every run, disturbed, cancelled or not, and exactly for which paths it keeps
    the source. */
module CopyLaw {
  import opened Common
  import opened PathText
  import opened FileTree
  import opened Storage
  import opened CopyRuns
  import opened CopyPath
  import PathInfo
  import NestedCopy

  lemma {:induction false} FileObeys(t: Tree, src: Path, dst: Path, t': Tree, ret: int, faulty: bool)
      returns (cost: nat)
    requires FileRun(t, src, dst, t', ret, faulty) && GuardPasses(Render(src), Render(dst))
    ensures ret <= 1
    ensures SameExceptBelow(t, t', dst) && NewPathsShallow(t, t', src, dst)
    ensures Get(t, src) != Some(Dir) ==> Copied(t, t', src, dst, faulty, ret, cost)
  {
    assert src + [] == src && dst + [] == dst;
    cost := 0;
    if CanCopy(t, src, dst) && ret == 1 {
      cost := |t[src].data|;
      FileCopied(t, t', src, dst, faulty, ret, cost);
    } else if CanCopy(t, src, dst) && GivenUp(t, src, dst, t', ret, faulty) {
      FileCopied(t, t', src, dst, faulty, ret, cost);
    } else if Get(t, src) != Some(Dir) {
      NothingCopied(t, src, dst, faulty, ret);
    }
  }

  lemma {:induction false} RunObeys(t: Tree, src: Path, dst: Path, t': Tree, ret: int, faulty: bool)
      returns (cost: nat)
    requires CopyRun(t, src, dst, t', ret, faulty) && GuardPasses(Render(src), Render(dst))
    ensures ret <= 1
    ensures Copied(t, t', src, dst, faulty, ret, cost)
    decreases Height(t, src), 1
  {
    if src <= dst { BelowFailsGuard(src, dst); }
    if Get(t, src) != Some(Dir) {
      cost := FileObeys(t, src, dst, t', ret, faulty);
    } else if t' == t && ret < 0 && (faulty || !CanMake(t, dst)) {
      cost := 0;
      NothingCopied(t, src, dst, faulty, ret);
    } else {
      var t1 := Made(t, dst);
      assert ParentIsDir(t, dst);
      CopyingStarts(t, t1, src, dst);
      if t' == t1 && ret == 0 && !faulty {
        cost := PathInfo.DIRECTORY_SIZE;
      } else {
        var entries, i: nat, u: Tree, f1 :| u == t1 && Lists(t, src, entries)
          && EntriesRun(u, src, dst, entries, i, t', ret, f1) && LoopLeft(|entries|, i, ret, f1, faulty);
        cost := EntriesObey(t, u, src, dst, entries, i, t', ret, f1);
        if ret == 1 { CopyEnds(t, t', src, dst, f1, faulty, entries, i, cost); }
      }
    }
  }

  lemma {:induction false} EntriesObey(t0: Tree, t: Tree, src: Path, dst: Path, entries: seq<Entry>, i: nat,
                                       t': Tree, ret: int, faulty: bool) returns (cost: nat)
    requires src != [] && dst != [] && GuardPasses(Render(src), Render(dst)) && !(src <= dst)
    requires Get(t0, src) == Some(Dir) && Lists(t0, src, entries)
    requires Copying(t0, t, src, dst, false, {}, PathInfo.DIRECTORY_SIZE)
    requires EntriesRan(t, src, dst, entries, i, t', ret, faulty)
    ensures ret <= 1
    ensures ret == 1 ==> i <= |entries| && Copying(t0, t', src, dst, faulty, Done(entries, i), cost)
    ensures ret <= 0 ==> Copied(t0, t', src, dst, faulty, ret, cost)
    decreases Height(t0, src), 0, i
  {
    var t1, f1, f2 := LastEntryRun(t, t', src, dst, entries, i, ret, faulty);
    if i == 0 {
      cost := PathInfo.DIRECTORY_SIZE;
    } else {
      cost := EntriesObey(t0, t, src, dst, entries, i - 1, t1, 1, f1);
      NotYetDone(t0, src, entries, i - 1);
      cost := EntryObeys(t0, t1, src, dst, entries[i - 1], Done(entries, i - 1), cost, f1, t', ret, f2);
    }
  }

  lemma {:induction false} EntryObeys(t0: Tree, t1: Tree, src: Path, dst: Path, e: Entry, done: set<Name>, cost1: nat,
                                      f1: bool, t': Tree, ret: int, f2: bool) returns (cost: nat)
    requires src != [] && dst != [] && GuardPasses(Render(src), Render(dst)) && !(src <= dst)
    requires Get(t0, src) == Some(Dir) && Get(t0, src + [e.name]) == Some(e.node) && e.name !in done
    requires Copying(t0, t1, src, dst, f1, done, cost1) && EntryRun(t1, src, dst, e, t', ret, f2)
    ensures ret <= 1
    ensures ret == 1 ==> Copying(t0, t', src, dst, f1 || f2, done + {e.name}, cost)
    ensures ret <= 0 ==> Copied(t0, t', src, dst, f1 || f2, ret, cost)
    decreases Height(t0, src), 0, 0
  {
    var n := e.name;
    RecursionShrinks(t0, t1, src, dst, n);
    GuardForEntry(src, dst, n);
    if Apart(src, dst) { FileEntry(t0, t1, src, dst, f1, done, n, cost1); }
    if e.node.Dir? {
      cost := RunObeys(t1, src + [n], dst + [n], t', ret, f2);
    } else {
      cost := FileObeys(t1, src + [n], dst + [n], t', ret, f2);
    }
    EntryStep(t0, t1, t', src, dst, f1, f2, f1 || f2, done, n, ret, cost1, cost);
    cost := cost1 + cost;
  }

  // ----- What follows -----

  ghost predicate KeepsSource(src: Path, dst: Path) {
    forall t: Tree, t': Tree, ret, faulty, r | CopyRun(t, src, dst, t', ret, faulty) ::
       At(t', src, r) == At(t, src, r)
  }

  /** Of the paths that the guard lets pass, the source stays as it was in every run on every tree exactly
      if they are not nested. */
  lemma {:induction false} KeepsSourceExactly(src: Path, dst: Path)
    requires src != [] && dst != [] && GuardPasses(Render(src), Render(dst))
    ensures KeepsSource(src, dst) <==> Apart(src, dst)
  {
    if src <= dst { BelowFailsGuard(src, dst); }
    if Apart(src, dst) {
      forall t: Tree, t': Tree, ret, faulty, r | CopyRun(t, src, dst, t', ret, faulty)
        ensures At(t', src, r) == At(t, src, r)
      {
        var cost := RunObeys(t, src, dst, t', ret, faulty);
        SourceKept(t, t', src, dst, faulty, ret, cost);
      }
    } else {
      var q := src[|dst|..];
      assert src == dst + q && q != [];
      var t, r, t' := NestedCopy.NestedCopyOverwritesSource(dst, q);
      assert CopyRun(t, src, dst, t', 1, false) && At(t', src, r) != At(t, src, r);
    }
  }

  // ----- What a run leaves at each path -----

  /** Relative path `r` of the destination is as it was, or as in the source. */
  ghost predicate Whole(t: Nodes, t': Nodes, src: Path, dst: Path, r: Path) {
    At(t', dst, r) == At(t, dst, r) || At(t', dst, r) == At(t, src, r)
  }

  lemma {:induction false} FileWhole(t: Tree, src: Path, dst: Path, t': Tree, ret: int, faulty: bool)
    requires FileRun(t, src, dst, t', ret, faulty)
    ensures forall r :: r != [] || ret == 1 ==> Whole(t, t', src, dst, r)
  {
    assert src + [] == src && dst + [] == dst;
    forall r | r != [] ensures At(t', dst, r) == At(t, dst, r) { assert dst + r != dst; }
  }

  /** In every run all paths are whole but at most one, which was given up; and in a successful one all. */
  lemma {:induction false} AllButOne(t: Tree, src: Path, dst: Path, t': Tree, ret: int, faulty: bool) returns (q: Path)
    requires CopyRun(t, src, dst, t', ret, faulty) && GuardPasses(Render(src), Render(dst)) && Apart(src, dst)
    ensures forall r :: r != q || ret == 1 ==> Whole(t, t', src, dst, r)
    decreases Height(t, src), 1
  {
    q := [];
    if Get(t, src) != Some(Dir) {
      FileWhole(t, src, dst, t', ret, faulty);
    } else if !(t' == t && ret < 0) {
      var t1 := Made(t, dst);
      assert ParentIsDir(t, dst);
      CopyingStarts(t, t1, src, dst);
      assert src + [] == src && dst + [] == dst;
      forall r ensures Whole(t, t1, src, dst, r) { assert r != [] ==> dst + r != dst; }
      if !(t' == t1 && ret == 0) {
        var entries, i: nat, u: Tree, f1 :| u == t1 && Lists(t, src, entries)
          && EntriesRun(u, src, dst, entries, i, t', ret, f1) && LoopLeft(|entries|, i, ret, f1, faulty);
        q := EntriesButOne(t, u, src, dst, entries, i, t', ret, f1);
      }
    }
  }

  lemma {:induction false} EntriesButOne(t0: Tree, t: Tree, src: Path, dst: Path, entries: seq<Entry>, i: nat,
                                         t': Tree, ret: int, faulty: bool) returns (q: Path)
    requires src != [] && dst != [] && GuardPasses(Render(src), Render(dst)) && Apart(src, dst)
    requires Get(t0, src) == Some(Dir) && Lists(t0, src, entries)
    requires Copying(t0, t, src, dst, false, {}, PathInfo.DIRECTORY_SIZE)
    requires forall r :: Whole(t0, t, src, dst, r)
    requires EntriesRan(t, src, dst, entries, i, t', ret, faulty)
    ensures forall r :: r != q || ret == 1 ==> Whole(t0, t', src, dst, r)
    decreases Height(t0, src), 0, i
  {
    q := [];
    var t1, f1, f2 := LastEntryRun(t, t', src, dst, entries, i, ret, faulty);
    if i > 0 {
      var e := entries[i - 1];
      var cost := EntriesObey(t0, t, src, dst, entries, i - 1, t1, 1, f1);
      var _ := EntriesButOne(t0, t, src, dst, entries, i - 1, t1, 1, f1);
      NotYetDone(t0, src, entries, i - 1);
      q := EntryButOne(t0, t1, src, dst, e, Done(entries, i - 1), cost, f1, t', ret, f2);
    }
  }

  lemma {:induction false} EntryButOne(t0: Tree, t1: Tree, src: Path, dst: Path, e: Entry, done: set<Name>, cost: nat,
                                       f1: bool, t': Tree, ret: int, f2: bool) returns (q: Path)
    requires src != [] && dst != [] && GuardPasses(Render(src), Render(dst)) && Apart(src, dst)
    requires Get(t0, src) == Some(Dir) && Get(t0, src + [e.name]) == Some(e.node) && e.name !in done
    requires Copying(t0, t1, src, dst, f1, done, cost) && EntryRun(t1, src, dst, e, t', ret, f2)
    requires forall r :: Whole(t0, t1, src, dst, r)
    ensures forall r :: r != q || ret == 1 ==> Whole(t0, t', src, dst, r)
    decreases Height(t0, src), 0, 0
  {
    var n := e.name;
    RecursionShrinks(t0, t1, src, dst, n);
    GuardForEntry(src, dst, n);
    ApartBelow(src, dst, n);
    FileEntry(t0, t1, src, dst, f1, done, n, cost);
    var rest: Path := [];
    if e.node.Dir? {
      var _ := RunObeys(t1, src + [n], dst + [n], t', ret, f2);
      rest := AllButOne(t1, src + [n], dst + [n], t', ret, f2);
    } else {
      var _ := FileObeys(t1, src + [n], dst + [n], t', ret, f2);
      FileWhole(t1, src + [n], dst + [n], t', ret, f2);
    }
    q := [n] + rest;
    forall r | r != q || ret == 1 ensures Whole(t0, t', src, dst, r) {
      WholeStep(t0, t1, t', src, dst, n, rest, ret, r);
    }
  }

  lemma {:induction false} WholeStep(t0: Tree, t1: Tree, t': Tree, src: Path, dst: Path, n: Name, rest: Path, ret: int,
                                     r: Path)
    requires Apart(src, dst) && SameExceptBelow(t0, t1, dst) && SameExceptBelow(t1, t', dst + [n])
    requires Whole(t0, t1, src, dst, r) && (r != [n] + rest || ret == 1)
    requires forall u :: u != rest || ret == 1 ==> Whole(t1, t', src + [n], dst + [n], u)
    ensures Whole(t0, t', src, dst, r)
  {
    if r != [] && r[0] == n {
      var u := r[1..];
      assert r == [n] + u;
      AtStep(t1, src, n, u);
      AtStep(t1, dst, n, u);
      AtStep(t', dst, n, u);
      assert Whole(t1, t', src + [n], dst + [n], u);
      PrefixesOfOne(src, dst, src + r);
      assert src <= src + r && !(dst <= src + r);
      assert Get(t1, src + r) == Get(t0, src + r);
    } else {
      NotThrough(dst, src, n, r);
      assert Get(t', dst + r) == Get(t1, dst + r);
    }
  }

  /** The order of the listings does not matter: two completed undisturbed runs on a tree leave the same tree. */
  lemma {:induction false} RunsAgree(t: Tree, src: Path, dst: Path, a: Tree, b: Tree)
    requires CopyRun(t, src, dst, a, 1, false) && CopyRun(t, src, dst, b, 1, false)
    requires GuardPasses(Render(src), Render(dst)) && Separate(t, src, dst)
    ensures a == b
  {
    var costA := RunObeys(t, src, dst, a, 1, false);
    var costB := RunObeys(t, src, dst, b, 1, false);
    forall p ensures Get(a, p) == Get(b, p) {
      if dst <= p {
        assert p == dst + p[|dst|..];
        assert CopyOutcome(t, a, src, dst, p[|dst|..]) && CopyOutcome(t, b, src, dst, p[|dst|..]);
      }
    }
    SameNodes(a, b);
  }
}
