/** The law of movePath over every run, disturbed or not; exactly for which paths and flags it holds,
    and exactly which nodes a disturbed run can lose. */
module MoveLaw {
  import opened Common
  import opened PathText
  import opened FileTree
  import opened Storage
  import opened MoveRuns
  import opened MovePath
  import NestedMove

  lemma {:induction false} RunObeys(t: Tree, src: Path, dst: Path, flags: Flags, t': Tree, ret: int, faulty: bool)
    requires MoveRun(t, src, dst, flags, t', ret, faulty) && GuardPasses(Render(src), Render(dst))
    ensures ret == 1 || ret <= 0
    ensures Moved(t, t', src, dst, flags, faulty, ret)
    decreases Height(t, src), 2
  {
    if src <= dst { BelowFailsGuard(src, dst); }
    if PlainRun(t, src, dst, flags, t', ret, faulty) {
      PlainObeys(t, src, dst, flags, t', ret, faulty);
    } else {
      var t1: Tree, r, f1 :| MergeRun(t, src, dst, flags, t1, r, f1) && ClosesTo(t1, src, t', r, ret, f1, faulty);
      MergeObeys(t, src, dst, flags, t1, r, f1);
      if r <= 0 { MovedByStopping(t, t1, src, dst, flags, f1, r); }
      else { MovedByMerging(t, t1, t', src, dst, flags, f1, faulty); }
    }
  }

  lemma {:induction false} PlainObeys(t: Tree, src: Path, dst: Path, flags: Flags, t': Tree, ret: int, faulty: bool)
    requires PlainRun(t, src, dst, flags, t', ret, faulty) && src != [] && dst != [] && !(src <= dst)
    ensures ret == 1 || ret <= 0
    ensures Moved(t, t', src, dst, flags, faulty, ret)
  {
    assert dst in t ==> ParentIsDir(t, dst);
    if faulty && t' == t {
      MovedNothing(t, src, dst, flags, true, ret);
    } else if CanRename(t, src, dst) {
      MovedByRename(t, src, dst, flags);
    } else if src in t && dst in t && t[src].File? && t[dst].File? && flags.replace {
      MovedByReplacing(t, t - {dst}, t', src, dst, flags, faulty, ret);
    } else {
      MovedNothing(t, src, dst, flags, faulty, ret);
    }
  }

  lemma {:induction false} MergeObeys(t: Tree, src: Path, dst: Path, flags: Flags, t': Tree, ret: int, faulty: bool)
    requires src != [] && dst != [] && flags.integrate && GuardPasses(Render(src), Render(dst)) && !(src <= dst)
    requires Get(t, src) == Some(Dir) && Get(t, dst) == Some(Dir) && MergeRun(t, src, dst, flags, t', ret, faulty)
    ensures ret == 1 || ret <= 0
    ensures Looped(t, t', src, dst, flags, faulty, ret)
    decreases Height(t, src), 1
  {
    if faulty && t' == t && ret == EIO {
      LoopStarts(t, src, dst, flags);
    } else {
      var entries, i: nat, f1 :| Lists(t, src, entries) && EntriesRun(t, src, dst, flags, entries, i, t', ret, f1)
        && LoopLeft(|entries|, i, ret, f1, faulty);
      EntriesObey(t, src, dst, flags, entries, i, t', ret, f1);
      if ret == 1 { LoopEnds(t, t', src, dst, flags, f1, faulty, entries, i); }
    }
  }

  lemma {:induction false} EntriesObey(t: Tree, src: Path, dst: Path, flags: Flags, entries: seq<Entry>, i: nat,
                                       t': Tree, ret: int, faulty: bool)
    requires src != [] && dst != [] && flags.integrate && GuardPasses(Render(src), Render(dst)) && !(src <= dst)
    requires Get(t, dst) == Some(Dir) && Lists(t, src, entries)
    requires EntriesRan(t, src, dst, flags, entries, i, t', ret, faulty)
    ensures ret == 1 || ret <= 0
    ensures ret == 1 ==> i <= |entries| && Looping(t, t', src, dst, flags, faulty, Done(entries, i))
    ensures ret <= 0 ==> Looped(t, t', src, dst, flags, faulty, ret)
    decreases Height(t, src), 0, i
  {
    var t1, f1, f2 := LastEntryRun(t, t', src, dst, flags, entries, i, ret, faulty);
    if i == 0 {
      LoopStarts(t, src, dst, flags);
    } else {
      var e := entries[i - 1];
      EntriesObey(t, src, dst, flags, entries, i - 1, t1, 1, f1);
      NotYetDone(t, src, entries, i - 1);
      EntryCallable(t, t1, src, dst, flags, f1, Done(entries, i - 1), e.name);
      RunObeys(t1, src + [e.name], dst + [e.name], flags, t', ret, f2);
      LoopStep(t, t1, t', src, dst, flags, f1, f2, Done(entries, i - 1), e.name, ret);
    }
  }

  // ----- For which paths -----

  ghost predicate LawHolds(src: Path, dst: Path, flags: Flags) {
    forall t: Tree, t': Tree, ret, faulty ::
      MoveRun(t, src, dst, flags, t', ret, faulty) ==> Conserved(t, t', src, dst, flags, faulty)
  }

  /** Of the paths that the guard lets pass, the law holds of every run on every tree exactly if they are
      not nested or the merge flag is off. */
  lemma {:induction false} LawHoldsExactly(src: Path, dst: Path, flags: Flags)
    requires src != [] && dst != [] && GuardPasses(Render(src), Render(dst))
    ensures LawHolds(src, dst, flags) <==> Apart(src, dst) || !flags.integrate
  {
    if src <= dst { BelowFailsGuard(src, dst); }
    if Apart(src, dst) || !flags.integrate {
      forall t: Tree, t': Tree, ret, faulty | MoveRun(t, src, dst, flags, t', ret, faulty)
        ensures Conserved(t, t', src, dst, flags, faulty)
      {
        RunObeys(t, src, dst, flags, t', ret, faulty);
      }
    } else {
      var q := src[|dst|..];
      assert src == dst + q && q != [];
      var t, t' := NestedMove.NestedMergeBreaksLaw(dst, q, flags);
    }
  }

  /** The order of the listings does not matter: all undisturbed runs on a tree return the same code,
      and if there is no clash they leave the same tree. */
  lemma {:induction false} RunsAgree(t: Tree, src: Path, dst: Path, flags: Flags, a: Tree, ra: int, b: Tree, rb: int)
    requires MoveRun(t, src, dst, flags, a, ra, false) && MoveRun(t, src, dst, flags, b, rb, false)
    requires GuardPasses(Render(src), Render(dst)) && Ready(t, src, dst) && Separate(t, src, dst, flags)
    ensures ra == rb == if Clash(t, src, dst, flags) then ERR_INVALID_TYPE else 1
    ensures !Clash(t, src, dst, flags) ==> a == b
  {
    RunObeys(t, src, dst, flags, a, ra, false);
    RunObeys(t, src, dst, flags, b, rb, false);
    if !Clash(t, src, dst, flags) { OneOutcome(t, a, b, src, dst, flags); }
  }

  // ----- What a disturbed run can lose -----

  /** The run leaves nothing at a place of the destination that held something. */
  ghost predicate Loses(t: Tree, src: Path, dst: Path, flags: Flags, r: Path, t': Tree, ret: int, faulty: bool) {
    && MoveRun(t, src, dst, flags, t', ret, faulty)
    && At(t, dst, r).Some? && At(t', dst, r) == None
  }

  /** A file of the source is to replace a file of the destination. */
  ghost predicate Replaces(t: Tree, src: Path, dst: Path, flags: Flags, r: Path) {
    && At(t, src, r).Some? && At(t, src, r).value.File? && At(t, dst, r).Some? && At(t, dst, r).value.File?
    && flags.replace && (r == [] || flags.integrate)
  }

  /** The run that loses a file: the device refuses the second rename. */
  lemma {:induction false} LosingRun(t: Tree, src: Path, dst: Path, flags: Flags, r: Path) returns (t': Tree)
    requires src != [] && dst != [] && GuardPasses(Render(src), Render(dst)) && Replaces(t, src, dst, flags, r)
    ensures Loses(t, src, dst, flags, r, t', EIO, true)
    decreases |r|
  {
    assert ParentIsDir(t, dst + r);
    if r == [] {
      assert src + [] == src && dst + [] == dst;
      forall p | p in t && dst <= p ensures p == dst { Ancestors(t, dst, p); }
      WithoutLeaf(t, dst);
      t' := t - {dst};
      PlainRuns(t, src, dst, flags, t', EIO, true);
    } else {
      var n, rest := r[0], r[1..];
      assert r == [n] + rest;
      AtStep(t, src, n, rest);
      AtStep(t, dst, n, rest);
      Ancestors(t, src, src + r);
      Ancestors(t, dst, dst + r);
      Ancestors(t, src + [n], src + r);
      GuardForEntry(src, dst, n);
      t' := LosingRun(t, src + [n], dst + [n], flags, rest);
      AtStep(t', dst, n, rest);
      var entries := ListedFirst(t, src, n);
      FirstEntryRun(t, src, dst, flags, entries);
      NextEntryRun(t, t, t', src, dst, flags, entries, 0, EIO, false, true);
      LoopOver(t, t', src, dst, flags, entries, 1, EIO, true, true);
      MergedRun(t, t', t', src, dst, flags, EIO, EIO, true, true);
    }
  }

  /** A run loses a node of the destination only if the device fails. Some run loses the one at `r` exactly
      if a file of the source is to replace it. */
  lemma {:induction false} LosesExactly(t: Tree, src: Path, dst: Path, flags: Flags, r: Path)
    requires src != [] && dst != [] && GuardPasses(Render(src), Render(dst)) && Separate(t, src, dst, flags)
    ensures forall t': Tree, ret :: !Loses(t, src, dst, flags, r, t', ret, false)
    ensures (exists t': Tree, ret :: Loses(t, src, dst, flags, r, t', ret, true)) <==> Replaces(t, src, dst, flags, r)
  {
    forall t': Tree, ret, faulty | Loses(t, src, dst, flags, r, t', ret, faulty)
      ensures faulty && Replaces(t, src, dst, flags, r)
    {
      LossIsReplacement(t, src, dst, flags, r, t', ret, faulty);
    }
    if Replaces(t, src, dst, flags, r) {
      var t' := LosingRun(t, src, dst, flags, r);
    }
  }

  lemma {:induction false} LossIsReplacement(t: Tree, src: Path, dst: Path, flags: Flags, r: Path, t': Tree, ret: int,
                                             faulty: bool)
    requires src != [] && dst != [] && GuardPasses(Render(src), Render(dst)) && Separate(t, src, dst, flags)
    requires Loses(t, src, dst, flags, r, t', ret, faulty)
    ensures faulty && Replaces(t, src, dst, flags, r)
  {
    RunObeys(t, src, dst, flags, t', ret, faulty);
    assert Fate(t, t', src, dst, flags, faulty, r);
    if r != [] && !flags.integrate {
      assert src < src + r;
      Ancestors(t, src, src + r);
      Ancestors(t, dst, dst + r);
    }
  }
}
