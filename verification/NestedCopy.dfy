/** Copying a directory onto one of its own ancestors: the guards of copyPath let it pass, and the
    copy overwrites its own source. */
module NestedCopy {
  import opened Common
  import opened PathText
  import opened FileTree
  import opened Storage
  import opened CopyRuns
  import opened NestedPaths

  /** The chain's file copied up, into `dst + q`. */
  ghost function CopiedUp(t: Nodes, dst: Path, q: Path, a: Name): Nodes { t[dst + q + [a] := OTHER] }

  lemma {:induction false} CopiedUpIsTree(t: Tree, dst: Path, q: Path, a: Name)
    requires Chain(t, dst, q, a)
    ensures WellFormed(CopiedUp(t, dst, q, a))
  {
    ChainLinks(t, dst, q, a, 0);
    assert Deep(dst, q, 0) == dst + q && (dst + q + [a])[..|dst + q|] == dst + q;
    WithNode(t, dst + q + [a], OTHER);
  }

  lemma {:induction false} OneEntryRun(t: Tree, t': Tree, src: Path, dst: Path, e: Entry)
    requires src != [] && dst != [] && GuardPasses(Render(src), Render(dst))
    requires Get(t, src) == Some(Dir) && Get(t, dst) == Some(Dir) && Lists(t, src, [e])
    requires if e.node.Dir? then CopyRun(t, src + [e.name], dst + [e.name], t', 1, false)
             else FileRun(t, src + [e.name], dst + [e.name], t', 1, false)
    ensures CopyRun(t, src, dst, t', 1, false)
  {
    FirstEntryRun(t, src, dst, [e]);
    NextEntryRun(t, t, t', src, dst, [e], 0, 1, false, false);
    assert LoopLeft(1, 1, 1, false, false);
    DirRun(t, t, t', src, dst, [e], 1, false);
  }

  lemma {:induction false} LastFileRun(t: Tree, dst: Path, q: Path, a: Name)
    requires Chain(t, dst, q, a)
    ensures FileRun(t, Deep(dst, q, |q|) + [a], Shallow(dst, q, |q|) + [a], CopiedUp(t, dst, q, a), 1, false)
  {
    assert Shallow(dst, q, |q|) == dst + q by { assert q[..|q|] == q; }
    ChainLinks(t, dst, q, a, 0);
    assert Deep(dst, q, 0) == dst + q && (dst + q + [a])[..|dst + q|] == dst + q;
    GuardsPass(dst, q, |q|);
    GuardForEntry(Deep(dst, q, |q|), dst + q, a);
  }

  lemma {:induction false} ChainCopiesUp(t: Tree, dst: Path, q: Path, a: Name, j: nat)
    requires Chain(t, dst, q, a) && 1 <= j <= |q|
    ensures WellFormed(CopiedUp(t, dst, q, a))
    ensures CopyRun(t, Deep(dst, q, j), Shallow(dst, q, j), CopiedUp(t, dst, q, a), 1, false)
    decreases |q| - j
  {
    CopiedUpIsTree(t, dst, q, a);
    ChainListing(t, dst, q, a, j);
    GuardsPass(dst, q, j);
    ChainLinks(t, dst, q, a, j);
    var t' := CopiedUp(t, dst, q, a);
    if j == |q| {
      LastFileRun(t, dst, q, a);
      OneEntryRun(t, t', Deep(dst, q, j), Shallow(dst, q, j), Entry(a, OTHER));
    } else {
      ChainCopiesUp(t, dst, q, a, j + 1);
      DeepSteps(dst, q, j);
      OneEntryRun(t, t', Deep(dst, q, j), Shallow(dst, q, j), Entry(q[j], Dir));
    }
  }

  lemma {:induction false} TwoEntriesRun(t: Tree, t1: Tree, t2: Tree, src: Path, dst: Path, entries: seq<Entry>,
                                         d: Name, f: Name)
    requires src != [] && dst != [] && GuardPasses(Render(src), Render(dst))
    requires Get(t, src) == Some(Dir) && Get(t, dst) == Some(Dir) && Lists(t, src, entries) && |entries| == 2
    requires entries[0] == Entry(d, Dir) && entries[1].name == f && entries[1].node.File?
    requires CopyRun(t, src + [d], dst + [d], t1, 1, false) && FileRun(t1, src + [f], dst + [f], t2, 1, false)
    ensures CopyRun(t, src, dst, t2, 1, false)
  {
    FirstEntryRun(t, src, dst, entries);
    NextEntryRun(t, t, t1, src, dst, entries, 0, 1, false, false);
    NextEntryRun(t, t1, t2, src, dst, entries, 1, 1, false, false);
    assert LoopLeft(2, 2, 1, false, false);
    DirRun(t, t, t2, src, dst, entries, 1, false);
  }

  /** Then the overwritten file `a` is copied in its turn. */
  lemma {:induction false} OverwrittenCopied(t: Tree, t1: Tree, dst: Path, q: Path, a: Name) returns (t2: Tree)
    requires Starting(t, dst, q, a) && t1 == CopiedUp(t, dst, q, a)
    ensures FileRun(t1, dst + q + [a], dst + [a], t2, 1, false) && t2 == t1[dst + [a] := OTHER]
  {
    GuardLetsAncestorPass(dst, q);
    GuardForEntry(dst + q, dst, a);
    assert (dst + [a])[..|dst|] == dst && dst != dst + q + [a] && dst + [a] != dst + q + [a];
    assert Get(t, dst + [a]) == None && Get(t, dst) == Some(Dir);
    WithNode(t1, dst + [a], OTHER);
    t2 := t1[dst + [a] := OTHER];
  }

  /** For every path and every ancestor of it: with the chain listed first, the copy reports success,
      has overwritten a file of its own source, and nothing holds that file's bytes any more. So the
      law of copyPath holds of all copies of a directory if and only if they are not copies onto an
      ancestor: see CopyPath.Separate. */
  lemma {:induction false} NestedCopyOverwritesSource(dst: Path, q: Path) returns (t: Tree, r: Path, t': Tree)
    requires dst != [] && q != []
    ensures GuardPasses(Render(dst + q), Render(dst)) && CopyRun(t, dst + q, dst, t', 1, false)
    ensures At(t, dst + q, r).Some? && At(t, dst + q, r).value.File? && At(t', dst + q, r) != At(t, dst + q, r)
    ensures forall p :: Get(t', p) != At(t, dst + q, r)
  {
    var a: Name := q[0] + "a";
    WorldFacts(dst, q, a);
    GuardLetsAncestorPass(dst, q);
    t, r := World(dst, q, a), [a];
    StartingListings(t, dst, q, a);
    ChainCopiesUp(t, dst, q, a, 1);
    var t1: Tree := CopiedUp(t, dst, q, a);
    t' := OverwrittenCopied(t, t1, dst, q, a);
    TwoEntriesRun(t, t1, t', dst + q, dst, [Entry(q[0], Dir), Entry(a, MINE)], q[0], a);
    forall p ensures Get(t', p) != Some(MINE) { assert Get(t, p) == Some(MINE) <==> p == dst + q + [a]; }
  }
}
