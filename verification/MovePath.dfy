/** movePath of src/file.c: rename, or merge two directories entry by entry. */
module MovePath {
  import opened Common
  import opened PathText
  import opened FileTree
  import opened Storage
  import opened MoveRuns

  // ----- What may happen to one relative path -----

  /** Relative path `r` is as it was on both sides. */
  ghost predicate Kept(t: Nodes, t': Nodes, src: Path, dst: Path, r: Path) {
    At(t', src, r) == At(t, src, r) && At(t', dst, r) == At(t, dst, r)
  }

  /** The source's node is at the destination and gone from the source. */
  ghost predicate Taken(t: Nodes, t': Nodes, src: Path, dst: Path, r: Path) {
    At(t, src, r).Some? && At(t', src, r) == None && At(t', dst, r) == At(t, src, r)
  }

  /** Whether the flags let the source's node take the place of what is at the destination. */
  ghost predicate MayTake(t: Nodes, src: Path, dst: Path, flags: Flags, r: Path) {
    var s, d := At(t, src, r), At(t, dst, r);
    && s.Some?
    && (d.Some? ==> s.value.Dir? == d.value.Dir? && if s.value.Dir? then flags.integrate else flags.replace)
  }

  /** The one loss: a replaced file was removed and then the device refused the rename. */
  ghost predicate Lost(t: Nodes, t': Nodes, src: Path, dst: Path, r: Path) {
    At(t', src, r) == At(t, src, r) && At(t', dst, r) == None
  }

  ghost predicate Fate(t: Nodes, t': Nodes, src: Path, dst: Path, flags: Flags, faulty: bool, r: Path) {
    || Kept(t, t', src, dst, r)
    || (Taken(t, t', src, dst, r) && MayTake(t, src, dst, flags, r))
    || (faulty && flags.replace && MayTake(t, src, dst, flags, r) && At(t, src, r).value.File?
        && Lost(t, t', src, dst, r))
  }

  // ----- What a completed run has done, as a function of the tree before it -----

  /** A source file that a completed run carries over to an existing destination. */
  ghost predicate Moves(t: Nodes, src: Path, dst: Path, flags: Flags, f: Path) {
    match At(t, dst, f)
    case None => flags.integrate
    case Some(d) => d.File? && flags.replace && (f == [] || flags.integrate)
  }

  /** A node leaves the source when every file at or below it does. */
  ghost predicate Leaves(t: Nodes, src: Path, dst: Path, flags: Flags, r: Path) {
    || dst !in t
    || (&& (At(t, src, r) == Some(Dir) ==> flags.integrate)
        && forall f :: r <= f && At(t, src, f).Some? && At(t, src, f).value.File? ==> Moves(t, src, dst, flags, f))
  }

  ghost predicate Outcome(t: Nodes, t': Nodes, src: Path, dst: Path, flags: Flags, r: Path) {
    if At(t, src, r).Some? && Leaves(t, src, dst, flags, r)
    then Taken(t, t', src, dst, r)
    else Kept(t, t', src, dst, r)
  }

  /** A file would meet a directory. */
  ghost predicate Clash(t: Nodes, src: Path, dst: Path, flags: Flags) {
    && (flags.integrate || flags.replace)
    && exists r :: ClashAt(t, src, dst, r) && (r == [] || flags.integrate)
  }

  /** The guard lets a destination pass that lies above the source. What is promised then depends on
      this: no directory is merged into one above it. */
  ghost predicate Separate(t: Nodes, src: Path, dst: Path, flags: Flags) {
    Apart(src, dst) || !flags.integrate || Get(t, src) != Some(Dir)
  }

  /** The paths name something that can be moved: the source exists and the target has a parent. */
  ghost predicate Ready(t: Nodes, src: Path, dst: Path) {
    src in t && ParentIsDir(t, dst)
  }

  /** The law of every exit. */
  ghost predicate Conserved(t: Nodes, t': Nodes, src: Path, dst: Path, flags: Flags, faulty: bool) {
    forall r :: Fate(t, t', src, dst, flags, faulty, r)
  }

  /** The result of a run that the device did not disturb. */
  ghost predicate Completed(t: Nodes, t': Nodes, src: Path, dst: Path, flags: Flags) {
    forall r :: Outcome(t, t', src, dst, flags, r)
  }

  // ----- One entry of the directory loop -----

  ghost predicate SameEntry(t0: Nodes, t1: Nodes, src: Path, dst: Path, n: Name) {
    forall r :: Kept(t0, t1, src, dst, [n] + r)
  }

  lemma {:induction false} EntrySteps(t0: Tree, t1: Tree, src: Path, dst: Path, n: Name, r: Path)
    requires SameEntry(t0, t1, src, dst, n)
    ensures At(t1, src + [n], r) == At(t0, src, [n] + r)
    ensures At(t1, dst + [n], r) == At(t0, dst, [n] + r)
  {
    AtStep(t1, src, n, r);
    AtStep(t1, dst, n, r);
    assert Kept(t0, t1, src, dst, [n] + r);
  }

  lemma {:induction false} OtherEntryKept(t1: Tree, t2: Tree, src: Path, dst: Path, n: Name, r: Path)
    requires Apart(src, dst) && SameOutside(t1, t2, src + [n], dst + [n])
    requires r == [] || r[0] != n
    ensures Kept(t1, t2, src, dst, r)
  {
    NotThrough(src, dst, n, r);
    NotThrough(dst, src, n, r);
    assert Get(t2, src + r) == Get(t1, src + r) && Get(t2, dst + r) == Get(t1, dst + r);
  }

  /** Moving one entry changes the fate of the paths through that entry and of no other. */
  lemma {:induction false} EntryFate(t0: Tree, t1: Tree, t2: Tree, src: Path, dst: Path, flags: Flags,
                  faulty1: bool, faulty2: bool, faulty: bool, done: set<Name>, n: Name)
    requires Apart(src, dst) && n !in done && (faulty1 || faulty2 ==> faulty)
    requires Conserved(t0, t1, src, dst, flags, faulty1)
    requires forall r :: r == [] || r[0] !in done ==> Kept(t0, t1, src, dst, r)
    requires SameOutside(t1, t2, src + [n], dst + [n])
    requires Conserved(t1, t2, src + [n], dst + [n], flags, faulty2)
    ensures Conserved(t0, t2, src, dst, flags, faulty)
    ensures forall r :: r == [] || r[0] !in done + {n} ==> Kept(t0, t2, src, dst, r)
  {
    forall r ensures Fate(t0, t2, src, dst, flags, faulty, r) {
      assert Fate(t0, t1, src, dst, flags, faulty1, r);
      if r != [] && r[0] == n {
        assert r == [n] + r[1..];
        EntrySteps(t0, t1, src, dst, n, r[1..]);
        AtStep(t2, src, n, r[1..]);
        AtStep(t2, dst, n, r[1..]);
        assert Fate(t1, t2, src + [n], dst + [n], flags, faulty2, r[1..]);
      } else {
        OtherEntryKept(t1, t2, src, dst, n, r);
      }
    }
    forall r | r == [] || r[0] !in done + {n} ensures Kept(t0, t2, src, dst, r) {
      assert Kept(t0, t1, src, dst, r);
      OtherEntryKept(t1, t2, src, dst, n, r);
    }
  }

  lemma {:induction false} EntryLeaves(t0: Tree, t1: Tree, src: Path, dst: Path, flags: Flags, n: Name, r: Path)
    requires SameEntry(t0, t1, src, dst, n) && flags.integrate && dst in t0
    ensures Leaves(t1, src + [n], dst + [n], flags, r) <==> Leaves(t0, src, dst, flags, [n] + r)
  {
    forall f ensures At(t1, src + [n], f) == At(t0, src, [n] + f)
                  && Moves(t1, src + [n], dst + [n], flags, f) == Moves(t0, src, dst, flags, [n] + f)
    {
      EntrySteps(t0, t1, src, dst, n, f);
    }
    if Leaves(t0, src, dst, flags, [n] + r) {
      forall f | r <= f && At(t1, src + [n], f).Some? && At(t1, src + [n], f).value.File?
        ensures Moves(t1, src + [n], dst + [n], flags, f)
      {
        assert [n] + r <= [n] + f;
      }
    }
    if Leaves(t1, src + [n], dst + [n], flags, r) {
      forall f | [n] + r <= f && At(t0, src, f).Some? && At(t0, src, f).value.File?
        ensures Moves(t0, src, dst, flags, f)
      {
        assert f == [n] + f[1..] && r <= f[1..];
        if dst + [n] !in t1 {
          EntrySteps(t0, t1, src, dst, n, f[1..]);
          if dst + [n] + f[1..] in t1 { Ancestors(t1, dst + [n], dst + [n] + f[1..]); }
        } else {
          assert At(t1, src + [n], f[1..]) == At(t0, src, f);
        }
      }
    }
  }

  lemma {:induction false} EntryOutcome(t0: Tree, t1: Tree, t2: Tree, src: Path, dst: Path, flags: Flags,
                     done: set<Name>, n: Name)
    requires Apart(src, dst) && flags.integrate && dst in t0
    requires SameEntry(t0, t1, src, dst, n)
    requires forall r :: r != [] && r[0] in done ==> Outcome(t0, t1, src, dst, flags, r)
    requires SameOutside(t1, t2, src + [n], dst + [n])
    requires Completed(t1, t2, src + [n], dst + [n], flags)
    ensures forall r :: r != [] && r[0] in done + {n} ==> Outcome(t0, t2, src, dst, flags, r)
  {
    forall r | r != [] && r[0] in done + {n} ensures Outcome(t0, t2, src, dst, flags, r) {
      if r[0] == n {
        var r' := r[1..];
        assert r == [n] + r';
        EntrySteps(t0, t1, src, dst, n, r');
        EntryLeaves(t0, t1, src, dst, flags, n, r');
        AtStep(t2, src, n, r');
        AtStep(t2, dst, n, r');
        assert Outcome(t1, t2, src + [n], dst + [n], flags, r');
      } else {
        assert Outcome(t0, t1, src, dst, flags, r);
        OtherEntryKept(t1, t2, src, dst, n, r);
      }
    }
  }

  lemma {:induction false} EntryClash(t0: Tree, t1: Tree, src: Path, dst: Path, flags: Flags, n: Name)
    requires SameEntry(t0, t1, src, dst, n) && flags.integrate
    ensures Clash(t1, src + [n], dst + [n], flags) <==> exists r :: ClashAt(t0, src, dst, [n] + r)
  {
    forall r ensures ClashAt(t1, src + [n], dst + [n], r) == ClashAt(t0, src, dst, [n] + r) {
      EntrySteps(t0, t1, src, dst, n, r);
    }
  }

  /** The closing sceIoRmdir succeeds exactly when everything below the source has left. */
  lemma {:induction false} Integrated(t0: Tree, t: Tree, t': Tree, src: Path, dst: Path, flags: Flags, removed: bool)
    requires Apart(src, dst) && flags.integrate && dst in t0
    requires At(t0, src, []) == Some(Dir) && At(t0, dst, []) == Some(Dir)
    requires Kept(t0, t, src, dst, [])
    requires Merged(t0, t, src, dst, flags)
    requires removed <==> Below(t, src) == {src}
    requires t' == if removed then t - {src} else t
    ensures Completed(t0, t', src, dst, flags)
  {
    assert src + [] == src && dst + [] == dst;
    if removed {
      forall f | At(t0, src, f).Some? && At(t0, src, f).value.File? ensures Moves(t0, src, dst, flags, f) {
        assert Outcome(t0, t, src, dst, flags, f);
        assert src + f in t ==> src + f in Below(t, src);
      }
    } else {
      assert src in Below(t, src);
      var p :| p in Below(t, src) && p != src;
      var r := p[|src|..];
      assert p == src + r && r != [];
      assert Outcome(t0, t, src, dst, flags, r);
    }
    forall r ensures Outcome(t0, t', src, dst, flags, r) {
      if r != [] {
        assert Outcome(t0, t, src, dst, flags, r);
        assert src + r != src && dst + r != src;
      }
    }
  }

  // ----- The method -----

  lemma {:induction false} RenameShallow(t: Tree, src: Path, dst: Path)
    requires CanRename(t, src, dst)
    ensures NewPathsShallow(t, Renamed(t, src, dst), src, dst)
  {
    forall p | p in Renamed(t, src, dst) && p !in t ensures dst <= p && |p| <= |dst| + Height(t, src) {
      RenamedGet(t, src, dst, p);
      HeightBound(t, src, src + p[|dst|..]);
    }
  }

  /** A rename moves everything below the source, whatever the flags. */
  lemma {:induction false} RenameOutcome(t: Tree, src: Path, dst: Path, flags: Flags, faulty: bool)
    requires CanRename(t, src, dst)
    ensures Conserved(t, Renamed(t, src, dst), src, dst, flags, faulty)
    ensures Completed(t, Renamed(t, src, dst), src, dst, flags)
    ensures !Clash(t, src, dst, flags)
  {
    RenamedFacts(t, src, dst);
    forall r ensures At(t, dst, r) == None {
      if dst + r in t { assert dst <= dst + r; Ancestors(t, dst, dst + r); }
    }
  }

  lemma {:induction false} Unmoved(t: Tree, src: Path, dst: Path, flags: Flags, faulty: bool)
    ensures Conserved(t, t, src, dst, flags, faulty)
  {
  }

  lemma {:induction false} FaultsOnlyAdd(t: Tree, t': Tree, src: Path, dst: Path, flags: Flags, faulty: bool,
                                         faulty': bool)
    requires Conserved(t, t', src, dst, flags, faulty) && (faulty ==> faulty')
    ensures Conserved(t, t', src, dst, flags, faulty')
  {
    forall r ensures Fate(t, t', src, dst, flags, faulty', r) {
      assert Fate(t, t', src, dst, flags, faulty, r);
    }
  }

  /** What the flags do not cover stays, and is reported as success. */
  lemma {:induction false} Untouched(t: Tree, src: Path, dst: Path, flags: Flags)
    requires src != [] && src in t && dst in t
    requires if t[src].Dir? then !flags.integrate else t[dst].Dir? || !flags.replace
    ensures Completed(t, t, src, dst, flags)
    ensures t[src].Dir? == t[dst].Dir? || (!flags.integrate && !flags.replace) ==> !Clash(t, src, dst, flags)
  {
    assert src + [] == src && dst + [] == dst;
    forall r ensures At(t, src, r).Some? && r != [] ==> t[src].Dir? {
      if src + r in t { Ancestors(t, src, src + r); }
    }
    forall r ensures Outcome(t, t, src, dst, flags, r) {
      if At(t, src, r).Some? && At(t, src, r).value.File? { assert r <= r; }
    }
  }

  /** Replacing one file: once the old destination is removed the rename can only succeed or
      meet a device failure. */
  lemma {:induction false} ReplacedFile(t: Tree, t1: Tree, src: Path, dst: Path, flags: Flags)
    requires src in t && dst in t && t[src].File? && t[dst].File? && !(src <= dst) && flags.replace
    requires t1 == t - {dst}
    ensures CanRename(t1, src, dst)
    ensures Conserved(t, t1, src, dst, flags, true)
    ensures Conserved(t, Renamed(t1, src, dst), src, dst, flags, false)
    ensures Completed(t, Renamed(t1, src, dst), src, dst, flags)
    ensures SameOutside(t, Renamed(t1, src, dst), src, dst)
    ensures NewPathsShallow(t, Renamed(t1, src, dst), src, dst)
    ensures !Clash(t, src, dst, flags)
  {
    assert ParentIsDir(t, dst) && ParentIsDir(t, src);
    RenamedFacts(t1, src, dst);
    var t2 := Renamed(t1, src, dst);
    assert src + [] == src && dst + [] == dst;
    forall r | r != [] ensures At(t, src, r) == None && At(t, dst, r) == None && At(t1, dst, r) == None {
      if src + r in t { Ancestors(t, src, src + r); }
      if dst + r in t { Ancestors(t, dst, dst + r); }
    }
    forall r ensures Fate(t, t2, src, dst, flags, false, r) && Outcome(t, t2, src, dst, flags, r) {
      assert At(t2, dst, r) == At(t1, src, r) && At(t2, src, r) == None;
    }
    forall r ensures Fate(t, t1, src, dst, flags, true, r) { }
    forall p | p in t2 ensures p in t {
      RenamedGet(t1, src, dst, p);
      if dst <= p {
        assert At(t, src, p[|dst|..]) != None;
        assert p == dst;
      }
    }
  }

  lemma {:induction false} EmptiedFate(t0: Tree, t: Tree, src: Path, dst: Path, flags: Flags, faulty: bool)
    requires Apart(src, dst) && flags.integrate
    requires At(t0, src, []) == Some(Dir) && At(t0, dst, []) == Some(Dir) && Kept(t0, t, src, dst, [])
    requires Conserved(t0, t, src, dst, flags, faulty) && Below(t, src) == {src}
    ensures Conserved(t0, t - {src}, src, dst, flags, faulty)
  {
    assert src + [] == src && dst + [] == dst;
    forall r ensures Fate(t0, t - {src}, src, dst, flags, faulty, r) {
      assert Fate(t0, t, src, dst, flags, faulty, r);
      if r != [] { assert src + r != src && dst + r != src; }
    }
  }

  /** What holds after the entries `done` have been moved. */
  ghost predicate Progress(t0: Tree, t: Tree, src: Path, dst: Path, flags: Flags, faulty: bool, done: set<Name>) {
    && Conserved(t0, t, src, dst, flags, faulty)
    && (forall r :: r == [] || r[0] !in done ==> Kept(t0, t, src, dst, r))
    && (!faulty ==> forall r :: r != [] && r[0] in done ==> Outcome(t0, t, src, dst, flags, r))
    && (!faulty ==> forall r :: r != [] && r[0] in done ==> !ClashAt(t0, src, dst, r))
  }

  lemma {:induction false} EntryReady(t0: Tree, t1: Tree, src: Path, dst: Path, flags: Flags, faulty: bool,
                                      done: set<Name>, n: Name)
    requires Apart(src, dst) && Progress(t0, t1, src, dst, flags, faulty, done) && n !in done
    requires src + [n] in t0 && Get(t0, dst) == Some(Dir)
    ensures Ready(t1, src + [n], dst + [n]) && Apart(src + [n], dst + [n])
  {
    assert Kept(t0, t1, src, dst, []) && Kept(t0, t1, src, dst, [n]);
    assert dst + [] == dst && (dst + [n])[..|dst|] == dst;
    assert src + [n] <= dst + [n] ==> src <= dst + [n];
    PrefixesOfOne(src, dst, dst + [n]);
    PrefixesOfOne(src, dst, src + [n]);
  }

  lemma {:induction false} ProgressStep(t0: Tree, t1: Tree, t2: Tree, src: Path, dst: Path, flags: Flags,
                     faulty1: bool, faulty2: bool, faulty: bool,
                     done: set<Name>, n: Name, done': set<Name>, ret: int)
    requires Apart(src, dst) && flags.integrate && dst in t0 && n !in done
    requires faulty == (faulty1 || faulty2) && done' == done + {n}
    requires Progress(t0, t1, src, dst, flags, faulty1, done)
    requires SameOutside(t1, t2, src + [n], dst + [n])
    requires Conserved(t1, t2, src + [n], dst + [n], flags, faulty2)
    requires !faulty2 ==>
               if Clash(t1, src + [n], dst + [n], flags) then ret == ERR_INVALID_TYPE
               else ret == 1 && Completed(t1, t2, src + [n], dst + [n], flags)
    ensures Conserved(t0, t2, src, dst, flags, faulty)
    ensures Kept(t0, t2, src, dst, [])
    ensures ret == 1 ==> Progress(t0, t2, src, dst, flags, faulty, done')
    ensures ret != 1 && !faulty ==> ret == ERR_INVALID_TYPE && Clash(t0, src, dst, flags)
  {
    EntryFate(t0, t1, t2, src, dst, flags, faulty1, faulty2, faulty, done, n);
    forall r ensures Kept(t0, t1, src, dst, [n] + r) { assert ([n] + r)[0] == n; }
    EntryClash(t0, t1, src, dst, flags, n);
    if ret == 1 && !faulty1 && !faulty2 {
      EntryOutcome(t0, t1, t2, src, dst, flags, done, n);
      forall r | r != [] && r[0] in done + {n} ensures !ClashAt(t0, src, dst, r) {
        if r[0] == n { assert r == [n] + r[1..]; }
      }
    }
  }

  ghost predicate Merged(t0: Tree, t: Tree, src: Path, dst: Path, flags: Flags) {
    forall r :: r != [] ==> Outcome(t0, t, src, dst, flags, r) && !ClashAt(t0, src, dst, r)
  }

  /** Past the last entry nothing of the source is left to look at. */
  lemma {:induction false} NothingElse(t0: Tree, t: Tree, src: Path, dst: Path, flags: Flags, faulty: bool,
                    entries: seq<Entry>, i: nat)
    requires src != [] && Lists(t0, src, entries) && i == |entries|
    requires Progress(t0, t, src, dst, flags, faulty, Done(entries, i))
    ensures !faulty ==> Merged(t0, t, src, dst, flags)
  {
    forall r | !faulty && r != [] ensures Outcome(t0, t, src, dst, flags, r) && !ClashAt(t0, src, dst, r) {
      if r[0] !in Done(entries, |entries|) {
        assert src + [r[0]] !in t0;
        assert src + [r[0]] <= src + r;
        if src + r in t0 { Ancestors(t0, src + [r[0]], src + r); }
      }
    }
  }

  /** What holds after the entries `done`. */
  ghost predicate HasLooped(t0: Tree, t: Tree, src: Path, dst: Path, flags: Flags, faulty: bool, done: set<Name>) {
    && SameOutside(t0, t, src, dst)
    && NewPathsShallow(t0, t, src, dst)
    && (Apart(src, dst) ==> Progress(t0, t, src, dst, flags, faulty, done))
  }

  /** The loop invariant. (Over the one value of `u`, so that the loop does not take it apart.) */
  ghost predicate Looping(t0: Tree, t: Tree, src: Path, dst: Path, flags: Flags, faulty: bool, done: set<Name>) {
    forall u: Tree {:trigger HasLooped(t0, u, src, dst, flags, faulty, done)} :: u == t ==>
        HasLooped(t0, u, src, dst, flags, faulty, done)
  }

  /** Every exit of the loop; likewise. */
  ghost predicate Looped(t0: Tree, t: Tree, src: Path, dst: Path, flags: Flags, faulty: bool, ret: int) {
    forall u: Tree {:trigger LoopLaw(t0, u, src, dst, flags, faulty, ret)} :: u == t ==>
        LoopLaw(t0, u, src, dst, flags, faulty, ret)
  }

  /** A return code other than 1 names a clash or a device failure. */
  ghost predicate LoopLaw(t0: Tree, t: Tree, src: Path, dst: Path, flags: Flags, faulty: bool, ret: int) {
    && SameOutside(t0, t, src, dst)
    && NewPathsShallow(t0, t, src, dst)
    && (Apart(src, dst) ==> Conserved(t0, t, src, dst, flags, faulty) && Kept(t0, t, src, dst, []))
    && (Apart(src, dst) && !faulty ==>
          if ret == 1 then Merged(t0, t, src, dst, flags)
          else ret == ERR_INVALID_TYPE && Clash(t0, src, dst, flags))
  }

  lemma {:induction false} LoopStarts(t: Tree, src: Path, dst: Path, flags: Flags)
    ensures Looping(t, t, src, dst, flags, false, {})
    ensures Looped(t, t, src, dst, flags, true, EIO)
  {
    Unmoved(t, src, dst, flags, false);
    Unmoved(t, src, dst, flags, true);
  }

  lemma {:induction false} EntryCallable(t0: Tree, t1: Tree, src: Path, dst: Path, flags: Flags, faulty: bool,
                                         done: set<Name>, n: Name)
    requires src != [] && dst != [] && GuardPasses(Render(src), Render(dst)) && !(src <= dst)
    requires Looping(t0, t1, src, dst, flags, faulty, done) && n !in done
    requires src + [n] in t0 && Get(t0, dst) == Some(Dir)
    ensures GuardPasses(Render(src + [n]), Render(dst + [n]))
    ensures Height(t1, src + [n]) < Height(t0, src)
    ensures Apart(src, dst) ==> Ready(t1, src + [n], dst + [n]) && Apart(src + [n], dst + [n])
  {
    assert HasLooped(t0, t1, src, dst, flags, faulty, done);
    GuardForEntry(src, dst, n);
    RecursionShrinks(t0, t1, src, dst, n);
    if Apart(src, dst) { EntryReady(t0, t1, src, dst, flags, faulty, done, n); }
  }

  lemma {:induction false} LoopStep(t0: Tree, t1: Tree, t2: Tree, src: Path, dst: Path, flags: Flags,
                 faulty1: bool, faulty2: bool, done: set<Name>, n: Name, ret: int)
    requires !(src <= dst) && flags.integrate && src + [n] in t0 && dst in t0 && n !in done
    requires Looping(t0, t1, src, dst, flags, faulty1, done)
    requires SameOutside(t1, t2, src + [n], dst + [n]) && NewPathsShallow(t1, t2, src + [n], dst + [n])
    requires Apart(src, dst) ==> Conserved(t1, t2, src + [n], dst + [n], flags, faulty2)
    requires Apart(src, dst) && !faulty2 ==>
               if Clash(t1, src + [n], dst + [n], flags) then ret == ERR_INVALID_TYPE
               else ret == 1 && Completed(t1, t2, src + [n], dst + [n], flags)
    ensures if ret == 1 then Looping(t0, t2, src, dst, flags, faulty1 || faulty2, done + {n})
            else Looped(t0, t2, src, dst, flags, faulty1 || faulty2, ret)
  {
    assert HasLooped(t0, t1, src, dst, flags, faulty1, done);
    ShallowSteps(t0, t1, t2, src, dst, n);
    forall p | !(src <= p) && !(dst <= p) ensures Get(t2, p) == Get(t0, p) {
      assert !(src + [n] <= p) && !(dst + [n] <= p);
      assert Get(t1, p) == Get(t0, p);
    }
    if Apart(src, dst) {
      ProgressStep(t0, t1, t2, src, dst, flags, faulty1, faulty2, faulty1 || faulty2, done, n, done + {n}, ret);
    }
  }

  lemma {:induction false} LoopEnds(t0: Tree, t: Tree, src: Path, dst: Path, flags: Flags, faulty: bool, faulty': bool,
                 entries: seq<Entry>, i: nat)
    requires src != [] && Lists(t0, src, entries) && i <= |entries| && (faulty ==> faulty')
    requires Looping(t0, t, src, dst, flags, faulty, Done(entries, i))
    requires i == |entries| || faulty'
    ensures Looped(t0, t, src, dst, flags, faulty', 1)
  {
    assert HasLooped(t0, t, src, dst, flags, faulty, Done(entries, i));
    if Apart(src, dst) {
      FaultsOnlyAdd(t0, t, src, dst, flags, faulty, faulty');
      if i == |entries| { NothingElse(t0, t, src, dst, flags, faulty, entries, i); }
    }
  }

  /** One entry of the directory loop, after `i` entries with the names `done`. */
  method MoveEntry(disk: Disk, src: Path, dst: Path, flags: Flags, entries: seq<Entry>, i: nat,
                   ghost t0: Tree, ghost f0: nat, ghost done: set<Name>) returns (ret: int)
    requires src != [] && dst != [] && flags.integrate
    requires GuardPasses(Render(src), Render(dst)) && !(src <= dst)
    requires Lists(t0, src, entries) && i < |entries| && done == Done(entries, i)
    requires Get(t0, dst) == Some(Dir) && disk.faults >= f0
    requires Looping(t0, disk.tree, src, dst, flags, disk.faults > f0, done)
    requires EntriesRan(t0, src, dst, flags, entries, i, disk.tree, 1, disk.faults > f0)
    modifies disk
    ensures disk.faults >= old(disk.faults)
    ensures ret == 1 || (ret <= 0 && ret != ERR_IDENTICAL && ret != ERR_SUBFOLDER)
    ensures ret == 1 ==>
              && Looping(t0, disk.tree, src, dst, flags, disk.faults > f0, done + {entries[i].name})
              && EntriesRan(t0, src, dst, flags, entries, i + 1, disk.tree, 1, disk.faults > f0)
    ensures ret <= 0 ==>
              && Looped(t0, disk.tree, src, dst, flags, disk.faults > f0, ret)
              && MergeRun(t0, src, dst, flags, disk.tree, ret, disk.faults > f0)
    decreases Height(t0, src), 0
  {
    ghost var t1, f1 := disk.tree, disk.faults;
    var n := entries[i].name;
    NotYetDone(t0, src, entries, i);
    EntryCallable(t0, t1, src, dst, flags, f1 > f0, done, n);
    ret := MovePath(disk, src + [n], dst + [n], flags);
    LoopStep(t0, t1, disk.tree, src, dst, flags, f1 > f0, disk.faults > f1, done, n, ret);
    NextEntryRun(t0, t1, disk.tree, src, dst, flags, entries, i, ret, f1 > f0, disk.faults > f1);
    if ret <= 0 { LoopOver(t0, disk.tree, src, dst, flags, entries, i + 1, ret, disk.faults > f0, disk.faults > f0); }
  }

  /** The directory loop of movePath. */
  method Integrate(disk: Disk, src: Path, dst: Path, flags: Flags) returns (ret: int)
    requires src != [] && dst != [] && flags.integrate
    requires GuardPasses(Render(src), Render(dst)) && !(src <= dst)
    requires Get(disk.tree, src) == Some(Dir) && Get(disk.tree, dst) == Some(Dir)
    modifies disk
    ensures disk.faults >= old(disk.faults)
    ensures ret == 1 || (ret <= 0 && ret != ERR_IDENTICAL && ret != ERR_SUBFOLDER)
    ensures Looped(old(disk.tree), disk.tree, src, dst, flags, disk.faults > old(disk.faults), ret)
    ensures MergeRun(old(disk.tree), src, dst, flags, disk.tree, ret, disk.faults > old(disk.faults))
    decreases Height(disk.tree, src), 2
  {
    LoopStarts(disk.tree, src, dst, flags);
    var ok, entries := disk.Dopen(src);
    if !ok { return EIO; }
    FirstEntryRun(disk.tree, src, dst, flags, entries);
    ret := MoveEntries(disk, src, dst, flags, entries, disk.tree, disk.faults);
  }

  /** From the first entry on. */
  method MoveEntries(disk: Disk, src: Path, dst: Path, flags: Flags, entries: seq<Entry>, ghost t0: Tree, ghost f0: nat)
      returns (ret: int)
    requires src != [] && dst != [] && flags.integrate
    requires GuardPasses(Render(src), Render(dst)) && !(src <= dst)
    requires Get(t0, dst) == Some(Dir) && Lists(t0, src, entries) && disk.faults == f0
    requires Looping(t0, disk.tree, src, dst, flags, false, {})
    requires EntriesRan(t0, src, dst, flags, entries, 0, disk.tree, 1, false)
    modifies disk
    ensures disk.faults >= f0
    ensures ret == 1 || (ret <= 0 && ret != ERR_IDENTICAL && ret != ERR_SUBFOLDER)
    ensures Looped(t0, disk.tree, src, dst, flags, disk.faults > f0, ret)
    ensures MergeRun(t0, src, dst, flags, disk.tree, ret, disk.faults > f0)
    decreases Height(t0, src), 1
  {
    var i := 0;
    ghost var f, done := f0, {};
    while i < |entries|
      invariant i <= |entries| && disk.faults == f >= f0 && done == Done(entries, i)
      invariant Looping(t0, disk.tree, src, dst, flags, f > f0, done)
      invariant EntriesRan(t0, src, dst, flags, entries, i, disk.tree, 1, f > f0)
    {
      var failed := disk.DreadFails();
      if failed { break; }
      ret := MoveEntry(disk, src, dst, flags, entries, i, t0, f0, done);
      if ret <= 0 { return; }
      f, done := disk.faults, done + {entries[i].name};
      i := i + 1;
    }
    LoopEnds(t0, disk.tree, src, dst, flags, f > f0, disk.faults > f0, entries, i);
    LoopOver(t0, disk.tree, src, dst, flags, entries, i, 1, f > f0, disk.faults > f0);
    return 1;
  }

  /** What movePath promises past its guards, for the trees before and after the call. */
  ghost predicate Moved(t: Tree, t': Tree, src: Path, dst: Path, flags: Flags, faulty: bool, ret: int) {
    && SameOutside(t, t', src, dst)
    && NewPathsShallow(t, t', src, dst)
    && (Separate(t, src, dst, flags) ==> Conserved(t, t', src, dst, flags, faulty))
    // undisturbed, it stops at a clash and otherwise reaches the one outcome
    && (Separate(t, src, dst, flags) && Ready(t, src, dst) && !faulty ==>
          if Clash(t, src, dst, flags) then ret == ERR_INVALID_TYPE
          else ret == 1 && Completed(t, t', src, dst, flags))
    // success is also what it reports for a move that cannot even start
    && (!Ready(t, src, dst) ==> ret == 1 && t' == t)
  }

  lemma {:induction false} MovedByRename(t: Tree, src: Path, dst: Path, flags: Flags)
    requires src != [] && CanRename(t, src, dst) && WellFormed(Renamed(t, src, dst))
    ensures Moved(t, Renamed(t, src, dst), src, dst, flags, false, 1)
  {
    RenameOutcome(t, src, dst, flags, false);
    RenameShallow(t, src, dst);
    RenamedFacts(t, src, dst);
  }

  /** Exits that change nothing: a device failure, a clash, or flags that do not apply. */
  lemma {:induction false} MovedNothing(t: Tree, src: Path, dst: Path, flags: Flags, faulty: bool, ret: int)
    requires src != [] && dst != []
    requires !Ready(t, src, dst) ==> ret == 1
    requires Separate(t, src, dst, flags) && Ready(t, src, dst) && !faulty ==>
               && dst in t
               && if t[src].Dir? != t[dst].Dir? && (flags.integrate || flags.replace) then ret == ERR_INVALID_TYPE
                  else ret == 1 && if t[src].Dir? then !flags.integrate else t[dst].Dir? || !flags.replace
    ensures Moved(t, t, src, dst, flags, faulty, ret)
  {
    Unmoved(t, src, dst, flags, faulty);
    if Separate(t, src, dst, flags) && Ready(t, src, dst) && !faulty {
      if t[src].Dir? != t[dst].Dir? && (flags.integrate || flags.replace) {
        assert src + [] == src && dst + [] == dst;
        assert ClashAt(t, src, dst, []);
      } else {
        Untouched(t, src, dst, flags);
      }
    }
  }

  lemma {:induction false} MovedByReplacing(t: Tree, t1: Tree, t2: Tree, src: Path, dst: Path, flags: Flags,
                                            faulty: bool, ret: int)
    requires src in t && dst in t && t[src].File? && t[dst].File? && !(src <= dst) && flags.replace
    requires t1 == t - {dst}
    requires (t2 == Renamed(t1, src, dst) && ret == 1) || (t2 == t1 && faulty)
    ensures Moved(t, t2, src, dst, flags, faulty, ret)
  {
    ReplacedFile(t, t1, src, dst, flags);
    assert ParentIsDir(t, dst);
    if t2 == Renamed(t1, src, dst) { FaultsOnlyAdd(t, t2, src, dst, flags, false, faulty); }
  }

  lemma {:induction false} MovedByStopping(t: Tree, t1: Tree, src: Path, dst: Path, flags: Flags, faulty: bool,
                                           ret: int)
    requires src in t && dst in t && flags.integrate && Get(t, src) == Some(Dir) && ret <= 0
    requires Looped(t, t1, src, dst, flags, faulty, ret)
    ensures Moved(t, t1, src, dst, flags, faulty, ret)
  {
    assert LoopLaw(t, t1, src, dst, flags, faulty, ret);
  }

  lemma {:induction false} MovedByMerging(t: Tree, t1: Tree, t2: Tree, src: Path, dst: Path, flags: Flags,
                       faulty1: bool, faulty: bool)
    requires Get(t, src) == Some(Dir) && Get(t, dst) == Some(Dir) && flags.integrate && (faulty1 ==> faulty)
    requires Looped(t, t1, src, dst, flags, faulty1, 1)
    requires t2 == t1 || (t2 == t1 - {src} && Below(t1, src) == {src})
    requires !faulty && Get(t1, src) == Some(Dir) ==> (t2 == t1 <==> Below(t1, src) != {src})
    ensures Moved(t, t2, src, dst, flags, faulty, 1)
  {
    assert LoopLaw(t, t1, src, dst, flags, faulty1, 1);
    assert src + [] == src && dst + [] == dst;
    assert ParentIsDir(t, dst);
    if Apart(src, dst) {
      FaultsOnlyAdd(t, t1, src, dst, flags, faulty1, faulty);
      if t2 != t1 { EmptiedFate(t, t1, src, dst, flags, faulty); }
      if !faulty {
        Integrated(t, t1, t2, src, dst, flags, t2 != t1);
        assert ClashAt(t, src, dst, []) ==> false;
      }
    }
  }

  method MovePath(disk: Disk, src: Path, dst: Path, flags: Flags) returns (ret: int)
    requires src != [] && dst != []
    modifies disk
    ensures disk.faults >= old(disk.faults)
    ensures ret == ERR_IDENTICAL <==> Folded(src) == Folded(dst)
    ensures ret == ERR_SUBFOLDER <==> Folded(src) < Folded(dst)
    ensures !GuardPasses(Render(src), Render(dst)) ==>
              && disk.tree == old(disk.tree)
              && ret == if SameText(Render(src), Render(dst)) then ERR_IDENTICAL else ERR_SUBFOLDER
    ensures GuardPasses(Render(src), Render(dst)) ==>
              && (ret == 1 || (ret <= 0 && ret != ERR_IDENTICAL && ret != ERR_SUBFOLDER))
              && Moved(old(disk.tree), disk.tree, src, dst, flags, disk.faults > old(disk.faults), ret)
    ensures MoveRun(old(disk.tree), src, dst, flags, disk.tree, ret, disk.faults > old(disk.faults))
    decreases Height(disk.tree, src), 3
  {
    ghost var t0, f0 := disk.tree, disk.faults;
    GuardRejects(src, dst);
    if SameText(Render(src), Render(dst)) { return ERR_IDENTICAL; }
    if Subfolder(Render(src), Render(dst)) { return ERR_SUBFOLDER; }
    if src <= dst { BelowFailsGuard(src, dst); assert false; }

    var res := disk.Rename(src, dst);
    if res >= 0 {
      MovedByRename(t0, src, dst, flags);
      return 1;
    }
    if res == EEXIST && (flags.integrate || flags.replace) {
      assert ParentIsDir(t0, dst);
      var srcRes, srcNode := disk.Getstat(src);
      if srcRes < 0 {
        MovedNothing(t0, src, dst, flags, true, srcRes);
        return srcRes;
      }
      var dstRes, dstNode := disk.Getstat(dst);
      if dstRes < 0 {
        MovedNothing(t0, src, dst, flags, true, dstRes);
        return dstRes;
      }

      if srcNode.Dir? != dstNode.Dir? {
        MovedNothing(t0, src, dst, flags, false, ERR_INVALID_TYPE);
        return ERR_INVALID_TYPE;
      }

      if srcNode.File? && dstNode.File? && flags.replace {
        ret := Replace(disk, src, dst, flags);
        return;
      }

      if srcNode.Dir? && dstNode.Dir? && flags.integrate {
        ret := Integrate(disk, src, dst, flags);
        ghost var t1, f1 := disk.tree, disk.faults;
        if ret <= 0 {
          MergedRun(t0, t1, t1, src, dst, flags, ret, ret, f1 > f0, f1 > f0);
          MovedByStopping(t0, t1, src, dst, flags, f1 > f0, ret);
          return;
        }
        var _ := disk.Rmdir(src);
        MergedRun(t0, t1, disk.tree, src, dst, flags, 1, 1, f1 > f0, disk.faults > f0);
        MovedByMerging(t0, t1, disk.tree, src, dst, flags, f1 > f0, disk.faults > f0);
        return 1;
      }
    }
    MovedNothing(t0, src, dst, flags, disk.faults > f0, 1);
    return 1;
  }

  /** Replace one file: remove the destination and rename again. */
  method Replace(disk: Disk, src: Path, dst: Path, flags: Flags) returns (ret: int)
    requires !(src <= dst) && flags.replace && src != [] && dst != []
    requires src in disk.tree && dst in disk.tree && disk.tree[src].File? && disk.tree[dst].File?
    modifies disk
    ensures disk.faults >= old(disk.faults)
    ensures ret == 1 || (ret <= 0 && ret != ERR_IDENTICAL && ret != ERR_SUBFOLDER)
    ensures Moved(old(disk.tree), disk.tree, src, dst, flags, disk.faults > old(disk.faults), ret)
    ensures ReplaceRun(old(disk.tree), src, dst, disk.tree, ret, disk.faults > old(disk.faults))
  {
    ghost var t0, f0 := disk.tree, disk.faults;
    assert ParentIsDir(t0, dst);
    var rm := disk.Remove(dst);
    ghost var t1 := disk.tree;
    if rm >= 0 { ReplacedFile(t0, t1, src, dst, flags); }
    var res := disk.Rename(src, dst);
    ret := if res < 0 then res else 1;
    if rm >= 0 {
      MovedByReplacing(t0, t1, disk.tree, src, dst, flags, disk.faults > f0, ret);
    } else {
      MovedNothing(t0, src, dst, flags, true, ret);
    }
  }

  // ----- What the contract means -----

  /** With both flags and no clash the destination is overridden by the source, which is gone. */
  lemma {:induction false} MoveOverrides(t: Tree, t': Tree, src: Path, dst: Path)
    requires var both := Flags(true, true); !Clash(t, src, dst, both) && Completed(t, t', src, dst, both)
    ensures forall r :: At(t', src, r) == None
    ensures forall r :: At(t', dst, r) == if At(t, src, r).Some? then At(t, src, r) else At(t, dst, r)
  {
    var both := Flags(true, true);
    forall r ensures At(t', src, r) == None
                     && At(t', dst, r) == if At(t, src, r).Some? then At(t, src, r) else At(t, dst, r)
    {
      assert Outcome(t, t', src, dst, both, r);
      forall f | At(t, src, f).Some? && At(t, src, f).value.File? ensures Moves(t, src, dst, both, f) {
        assert !ClashAt(t, src, dst, f);
      }
    }
  }

  /** With MOVE_INTEGRATE alone the destination is only filled up, and what stays behind is the files that
      have a counterpart, with the directories on the way to them. */
  lemma {:induction false} MoveFills(t: Tree, t': Tree, src: Path, dst: Path, r: Path)
    requires var fill := Flags(true, false); !Clash(t, src, dst, fill) && Completed(t, t', src, dst, fill)
    requires src != [] && dst in t
    ensures At(t', dst, r) == if At(t, dst, r).Some? then At(t, dst, r) else At(t, src, r)
    ensures At(t', src, r) ==
            if exists f :: r <= f && At(t, src, f).Some? && At(t, src, f).value.File? && At(t, dst, f).Some?
            then At(t, src, r) else None
  {
    var fill := Flags(true, false);
    assert Outcome(t, t', src, dst, fill, r) && !ClashAt(t, src, dst, r);
    if f :| r <= f && At(t, src, f).Some? && At(t, src, f).value.File? && At(t, dst, f).Some? {
      assert !Moves(t, src, dst, fill, f);
      if At(t, src, r) == None { Ancestors(t, src + r, src + f); }
    }
    if At(t, src, r).Some? && At(t, dst, r) == None {
      forall f | r <= f ensures At(t, dst, f) == None {
        if At(t, dst, f).Some? { Ancestors(t, dst + r, dst + f); }
      }
    }
  }

  lemma {:induction false} KeepsAt(t: Tree, t': Tree, src: Path, dst: Path, replace: bool, r: Path)
    requires Outcome(t, t', src, dst, Flags(false, replace), r)
    requires src in t && dst in t && !(replace && t[src].File? && t[dst].File?)
    ensures Kept(t, t', src, dst, r)
  {
    assert src + [] == src && dst + [] == dst;
    if At(t, src, r).Some? && At(t, src, r).value.File? { assert !Moves(t, src, dst, Flags(false, replace), r); }
  }

  /** Without it an existing destination changes only if a file replaces a file. */
  lemma {:induction false} MoveKeeps(t: Tree, t': Tree, src: Path, dst: Path, replace: bool)
    requires Completed(t, t', src, dst, Flags(false, replace)) && SameOutside(t, t', src, dst)
    requires src in t && dst in t && src != [] && dst != []
    ensures if replace && t[src].File? && t[dst].File? then Get(t', src) == None && Get(t', dst) == Some(t[src])
            else t' == t
  {
    var flags := Flags(false, replace);
    assert src + [] == src && dst + [] == dst;
    assert Outcome(t, t', src, dst, flags, []);
    if t[src].File? {
      forall f | f != [] ensures At(t, src, f) == None { if src + f in t { Ancestors(t, src, src + f); } }
    }
    if !(replace && t[src].File? && t[dst].File?) {
      forall p ensures Get(t', p) == Get(t, p) {
        if src <= p {
          assert p == src + p[|src|..];
          KeepsAt(t, t', src, dst, replace, p[|src|..]);
        } else if dst <= p {
          assert p == dst + p[|dst|..];
          KeepsAt(t, t', src, dst, replace, p[|dst|..]);
        }
      }
      SameNodes(t', t);
    }
  }

  /** No exit loses a byte of the source, and without MOVE_REPLACE none loses a destination file. */
  lemma {:induction false} NothingIsLost(t: Tree, t': Tree, src: Path, dst: Path, flags: Flags, faulty: bool, r: Path)
    requires Conserved(t, t', src, dst, flags, faulty)
    ensures At(t, src, r).Some? ==> At(t', src, r) == At(t, src, r) || At(t', dst, r) == At(t, src, r)
    ensures At(t, dst, r).Some? && !flags.replace ==> At(t', dst, r) == At(t, dst, r)
    ensures At(t, dst, r).Some? && !faulty && At(t', dst, r) != At(t, dst, r) ==>
              At(t', dst, r) == At(t, src, r) && At(t', src, r) == None
  {
    assert Fate(t, t', src, dst, flags, faulty, r);
  }

  /** The order in which the entries are listed does not matter. */
  lemma {:induction false} OneOutcome(t: Tree, a: Tree, b: Tree, src: Path, dst: Path, flags: Flags)
    requires SameOutside(t, a, src, dst) && Completed(t, a, src, dst, flags)
    requires SameOutside(t, b, src, dst) && Completed(t, b, src, dst, flags)
    ensures a == b
  {
    forall p ensures Get(a, p) == Get(b, p) {
      if src <= p {
        var r := p[|src|..];
        assert p == src + r;
        assert Outcome(t, a, src, dst, flags, r) && Outcome(t, b, src, dst, flags, r);
      } else if dst <= p {
        var r := p[|dst|..];
        assert p == dst + r;
        assert Outcome(t, a, src, dst, flags, r) && Outcome(t, b, src, dst, flags, r);
      } else {
        assert Get(a, p) == Get(t, p) == Get(b, p);
      }
    }
    SameNodes(a, b);
  }
}
