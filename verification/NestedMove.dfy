/** Moving a directory into one of its own ancestors: the guards of movePath let it pass, and its
    law of conservation fails. */
module NestedMove {
  import opened Common
  import opened PathText
  import opened FileTree
  import opened Storage
  import opened MoveRuns
  import opened MovePath
  import opened NestedPaths

  /** `t` without the chain from its `j`-th directory on, its file moved up. */
  ghost function Cut(t: Nodes, dst: Path, q: Path, a: Name, j: nat): Nodes
    requires j <= |q|
  {
    (map p | p in t && !(Deep(dst, q, j) <= p) :: t[p])[dst + q + [a] := OTHER]
  }

  lemma {:induction false} CutIsTree(t: Tree, dst: Path, q: Path, a: Name, j: nat)
    requires Chain(t, dst, q, a) && 1 <= j <= |q|
    ensures WellFormed(Cut(t, dst, q, a, j))
  {
    var c := Cut(t, dst, q, a, j);
    assert Get(t, Deep(dst, q, 0)) == Some(Dir) && Deep(dst, q, 0) == dst + q;
    forall p | p in c ensures ParentIsDir(c, p) {
      if p == dst + q + [a] {
        assert p[..|p| - 1] == dst + q;
        assert !(Deep(dst, q, j) <= dst + q);
      } else {
        assert ParentIsDir(t, p);
        if |p| > 1 {
          var up := p[..|p| - 1];
          assert up <= p && !(Deep(dst, q, j) <= up);
          assert Get(t, up) == Some(Dir);
        }
      }
    }
  }

  // ----- Moving the chain up -----

  /** Past the cut only the directory above it is left of the chain. */
  lemma {:induction false} CutAbove(t: Tree, dst: Path, q: Path, a: Name, j: nat)
    requires Chain(t, dst, q, a) && 1 <= j < |q|
    ensures Below(Cut(t, dst, q, a, j + 1), Deep(dst, q, j)) == {Deep(dst, q, j)}
    ensures Get(Cut(t, dst, q, a, j + 1), Deep(dst, q, j)) == Some(Dir)
    ensures Cut(t, dst, q, a, j + 1) - {Deep(dst, q, j)} == Cut(t, dst, q, a, j)
  {
    var path, next := Deep(dst, q, j), Deep(dst, q, j + 1);
    NotBelowChain(dst, q, a, j);
    DeepSteps(dst, q, j);
    assert Get(t, path) == Some(Dir);
    forall p ensures p in t && path <= p <==> p == path || (p in t && next <= p) {
      if p in t && path <= p { BelowChain(t, dst, q, a, j, p); }
    }
    CutOne(t, path, next, dst + q + [a]);
  }

  lemma {:induction false} CutOne(t: Nodes, path: Path, next: Path, to: Path)
    requires !(path <= to) && !(next <= path)
    requires forall p :: p in t && path <= p <==> p == path || (p in t && next <= p)
    ensures var c := (map p | p in t && !(next <= p) :: t[p])[to := OTHER];
            Below(c, path) == {path} && c - {path} == (map p | p in t && !(path <= p) :: t[p])[to := OTHER]
  {
    var c := (map p | p in t && !(next <= p) :: t[p])[to := OTHER];
    var c' := (map p | p in t && !(path <= p) :: t[p])[to := OTHER];
    assert path in t && path in c;
    forall p ensures Get(c - {path}, p) == Get(c', p) { }
    SameNodes(c - {path}, c');
  }

  /** A leaf that replaces another, or takes a free place. */
  ghost function Replacing(t: Nodes, from: Path, to: Path): Nodes
    requires from in t
  {
    map p | p in t.Keys + {to} && p != from :: if p == to then t[from] else t[p]
  }

  lemma {:induction false} LeafMoves(t: Tree, from: Path, to: Path) returns (t1: Tree)
    requires from in t && t[from].File? && Get(t, to) != Some(Dir) && ParentIsDir(t, to) && from != to
    ensures t1 == t - {to} && CanRename(t1, from, to) && Renamed(t1, from, to) == Replacing(t, from, to)
  {
    assert ParentIsDir(t, from);
    forall p | p in t && to <= p ensures p == to { Ancestors(t, to, p); }
    forall p | p in t && from <= p ensures p == from { Ancestors(t, from, p); }
    WithoutLeaf(t, to);
    t1 := t - {to};
    AncestorIsDir(t, from, to);
    forall p ensures Get(Renamed(t1, from, to), p) == Get(Replacing(t, from, to), p) {
      assert to <= p && p != to ==> p !in t;
      assert from <= p && p != from ==> p !in t;
      LeafMovesAt(t, t1, from, to, p);
    }
    SameNodes(Renamed(t1, from, to), Replacing(t, from, to));
  }

  lemma {:induction false} LeafMovesAt(t: Tree, t1: Tree, from: Path, to: Path, p: Path)
    requires from in t && t[from].File? && from != to && t1 == t - {to} && CanRename(t1, from, to)
    requires to <= p && p != to ==> p !in t
    requires from <= p && p != from ==> p !in t
    ensures Get(Renamed(t1, from, to), p) == Get(Replacing(t, from, to), p)
  {
    RenamedGet(t1, from, to, p);
    if to <= p {
      LeafBelow(t, from, p[|to|..]);
      assert p == to + p[|to|..];
    }
  }

  lemma {:induction false} AncestorIsDir(t: Tree, q: Path, p: Path)
    requires q != [] && ParentIsDir(t, p)
    ensures q <= p && q != p ==> Get(t, q) == Some(Dir)
  {
    if q <= p && q != p {
      assert q == p[..|q|] && q <= p[..|p| - 1];
      Ancestors(t, q, p[..|p| - 1]);
    }
  }

  lemma {:induction false} LeafBelow(t: Tree, from: Path, r: Path)
    requires from in t && t[from].File?
    ensures Get(t, from + r) == if r == [] then Some(t[from]) else None
  {
    assert ParentIsDir(t, from);
    assert r == [] ==> from + r == from;
    if r != [] && from + r in t { Ancestors(t, from, from + r); }
  }

  lemma {:induction false} LeafRun(t: Tree, from: Path, to: Path, flags: Flags) returns (t': Tree)
    requires from in t && t[from].File? && Get(t, to) != Some(Dir) && ParentIsDir(t, to) && from != to
    requires from != [] && to != [] && GuardPasses(Render(from), Render(to)) && (to in t ==> flags.replace)
    ensures MoveRun(t, from, to, flags, t', 1, false) && t' == Replacing(t, from, to)
  {
    assert ParentIsDir(t, from);
    var t1 := LeafMoves(t, from, to);
    RenamedIsTree(t1, from, to);
    t' := Renamed(t1, from, to);
    if to !in t { assert t1 == t; }
  }

  /** What the replacement leaves of the chain's last directory. */
  lemma {:induction false} LastEmptied(t: Tree, dst: Path, q: Path, a: Name)
    requires Chain(t, dst, q, a)
    ensures Deep(dst, q, |q|) + [a] in t
    ensures var path := Deep(dst, q, |q|); var t' := Replacing(t, path + [a], dst + q + [a]);
      && Get(t', path) == Some(Dir) && Below(t', path) == {path}
      && t' - {path} == Cut(t, dst, q, a, |q|)
  {
    var path, src, to := Deep(dst, q, |q|), Deep(dst, q, |q|) + [a], dst + q + [a];
    assert Get(t, src) == Some(OTHER);
    var t' := Replacing(t, src, to);
    NotBelowChain(dst, q, a, |q|);
    DeepOrder(dst, q, 1, |q|);
    assert Get(t, path) == Some(Dir);
    forall p | p in t && path <= p ensures p == path || p == src {
      assert OnChain(dst, q, a, p);
      if p != src {
        var i :| 1 <= i <= |q| && p == Deep(dst, q, i);
        assert |p| == |dst + q| + i;
      }
    }
    OnlyOneBelow(t, path, src, to);
  }

  /** A directory whose only node below it takes another place. */
  lemma {:induction false} OnlyOneBelow(t: Nodes, path: Path, from: Path, to: Path)
    requires Get(t, path) == Some(Dir) && Get(t, from) == Some(OTHER) && from != path && path <= from && !(path <= to)
    requires forall p :: p in t && path <= p ==> p == path || p == from
    ensures var t' := Replacing(t, from, to);
      && Get(t', path) == Some(Dir) && Below(t', path) == {path}
      && t' - {path} == (map p | p in t && !(path <= p) :: t[p])[to := OTHER]
  {
    var t', c := Replacing(t, from, to), (map p | p in t && !(path <= p) :: t[p])[to := OTHER];
    forall p ensures Get(t' - {path}, p) == Get(c, p) { }
    SameNodes(t' - {path}, c);
  }

  /** The file at the end takes its place, free or replaced, in `dst + q`. */
  lemma {:induction false} FileMovesUp(t: Tree, dst: Path, q: Path, a: Name, flags: Flags) returns (t': Tree)
    requires Chain(t, dst, q, a) && (dst + q + [a] in t ==> flags.replace)
    ensures MoveRun(t, Deep(dst, q, |q|) + [a], Shallow(dst, q, |q|) + [a], flags, t', 1, false)
    ensures t' == Replacing(t, Deep(dst, q, |q|) + [a], dst + q + [a])
  {
    var path, src, to := Deep(dst, q, |q|), Deep(dst, q, |q|) + [a], dst + q + [a];
    assert Shallow(dst, q, |q|) == dst + q by { assert q[..|q|] == q; }
    assert Deep(dst, q, 0) == dst + q && Get(t, Deep(dst, q, 0)) == Some(Dir);
    assert to[..|to| - 1] == dst + q;
    GuardsPass(dst, q, |q|);
    GuardForEntry(path, dst + q, a);
    t' := LeafRun(t, src, to, flags);
  }

  /** A directory whose only entry moves up, and that is empty then. */
  lemma {:induction false} LinkMovesUp(t: Tree, t1: Tree, t2: Tree, path: Path, up: Path, flags: Flags, e: Entry)
    requires path != [] && up != [] && GuardPasses(Render(path), Render(up)) && flags.integrate
    requires Get(t, path) == Some(Dir) && Get(t, up) == Some(Dir) && Lists(t, path, [e])
    requires MoveRun(t, path + [e.name], up + [e.name], flags, t1, 1, false)
    requires Below(t1, path) == {path} && Get(t1, path) == Some(Dir) && t2 == t1 - {path}
    ensures MoveRun(t, path, up, flags, t2, 1, false)
  {
    OneEntryRun(t, t1, path, up, flags, e);
    var closed := ClosedRun(t, t1, path, up, flags);
  }

  lemma {:induction false} ChainMovesUp(t: Tree, dst: Path, q: Path, a: Name, flags: Flags, j: nat)
    requires Chain(t, dst, q, a) && flags.integrate && (dst + q + [a] in t ==> flags.replace)
    requires 1 <= j <= |q|
    ensures WellFormed(Cut(t, dst, q, a, j))
    ensures MoveRun(t, Deep(dst, q, j), Shallow(dst, q, j), flags, Cut(t, dst, q, a, j), 1, false)
    decreases |q| - j
  {
    var path, up := Deep(dst, q, j), Shallow(dst, q, j);
    CutIsTree(t, dst, q, a, j);
    ChainListing(t, dst, q, a, j);
    GuardsPass(dst, q, j);
    ChainLinks(t, dst, q, a, j);
    if j == |q| {
      var t1 := FileMovesUp(t, dst, q, a, flags);
      LastEmptied(t, dst, q, a);
      LinkMovesUp(t, t1, Cut(t, dst, q, a, j), path, up, flags, Entry(a, OTHER));
    } else {
      ChainMovesUp(t, dst, q, a, flags, j + 1);
      DeepSteps(dst, q, j);
      CutAbove(t, dst, q, a, j);
      LinkMovesUp(t, Cut(t, dst, q, a, j + 1), Cut(t, dst, q, a, j), path, up, flags, Entry(q[j], Dir));
    }
  }

  lemma {:induction false} OneEntryRun(t: Tree, t1: Tree, src: Path, dst: Path, flags: Flags, e: Entry)
    requires Lists(t, src, [e]) && MoveRun(t, src + [e.name], dst + [e.name], flags, t1, 1, false)
    ensures MergeRun(t, src, dst, flags, t1, 1, false)
  {
    FirstEntryRun(t, src, dst, flags, [e]);
    NextEntryRun(t, t, t1, src, dst, flags, [e], 0, 1, false, false);
    LoopOver(t, t1, src, dst, flags, [e], 1, 1, false, false);
  }

  // ----- The two runs -----

  lemma {:induction false} FirstOfTwo(t: Tree, t1: Tree, src: Path, dst: Path, flags: Flags, entries: seq<Entry>)
    requires entries != []
    requires MoveRun(t, src + [entries[0].name], dst + [entries[0].name], flags, t1, 1, false)
    ensures EntriesRan(t, src, dst, flags, entries, 1, t1, 1, false)
  {
    FirstEntryRun(t, src, dst, flags, entries);
    NextEntryRun(t, t, t1, src, dst, flags, entries, 0, 1, false, false);
  }

  lemma {:induction false} TwoEntriesRun(t: Tree, t1: Tree, t2: Tree, src: Path, dst: Path, flags: Flags,
                                         entries: seq<Entry>, e: Name, f: Name)
    requires Lists(t, src, entries) && |entries| == 2 && entries[0].name == e && entries[1].name == f
    requires MoveRun(t, src + [e], dst + [e], flags, t1, 1, false)
    requires MoveRun(t1, src + [f], dst + [f], flags, t2, 1, false)
    ensures MergeRun(t, src, dst, flags, t2, 1, false)
  {
    FirstOfTwo(t, t1, src, dst, flags, entries);
    NextEntryRun(t, t1, t2, src, dst, flags, entries, 1, 1, false, false);
    LoopOver(t, t2, src, dst, flags, entries, 2, 1, false, false);
  }

  /** File `a` is listed first: it moves, and the chain's file takes its place. */
  lemma {:induction false} FileFirst(t: Tree, dst: Path, q: Path, a: Name, flags: Flags) returns (t': Tree)
    requires Starting(t, dst, q, a) && flags.integrate
    ensures MoveRun(t, dst + q, dst, flags, t', 1, false)
    ensures Get(t', dst + q + [a]) == Some(OTHER) && Get(t', dst + [a]) == Some(MINE)
  {
    var src := dst + q;
    StartingListings(t, dst, q, a);
    GuardLetsAncestorPass(dst, q);
    var t1 := FileMoves(t, dst, q, a, flags);
    t' := ChainMoves(t1, dst, q, a, flags);
    TwoEntriesRun(t, t1, t', src, dst, flags, [Entry(a, MINE), Entry(q[0], Dir)], a, q[0]);
    FileStays(t1, dst, q, a);
    var closed := ClosedRun(t, t', src, dst, flags);
  }

  lemma {:induction false} FileMoves(t: Tree, dst: Path, q: Path, a: Name, flags: Flags) returns (t1: Tree)
    requires Starting(t, dst, q, a)
    ensures MoveRun(t, dst + q + [a], dst + [a], flags, t1, 1, false)
    ensures Chain(t1, dst, q, a) && dst + q + [a] !in t1 && Get(t1, dst + [a]) == Some(MINE)
  {
    GuardLetsAncestorPass(dst, q);
    GuardForEntry(dst + q, dst, a);
    assert (dst + [a])[..|dst|] == dst;
    assert Get(t, dst + q + [a]) == Some(MINE);
    t1 := LeafRun(t, dst + q + [a], dst + [a], flags);
    ChainStays(t, t1, dst, q, a);
  }

  lemma {:induction false} ChainMoves(t: Tree, dst: Path, q: Path, a: Name, flags: Flags) returns (t': Tree)
    requires Chain(t, dst, q, a) && flags.integrate && (dst + q + [a] in t ==> flags.replace)
    ensures MoveRun(t, dst + q + [q[0]], dst + [q[0]], flags, t', 1, false) && t' == Cut(t, dst, q, a, 1)
  {
    ChainMovesUp(t, dst, q, a, flags, 1);
    t' := Cut(t, dst, q, a, 1);
    assert q[..1] == [q[0]];
  }

  /** The closing sceIoRmdir meets the file that has moved up. */
  lemma {:induction false} FileStays(t: Nodes, dst: Path, q: Path, a: Name)
    requires dst != [] && q != [] && Get(t, dst + [a]) == Some(MINE)
    ensures var t' := Cut(t, dst, q, a, 1);
      Closed(t', dst + q) == t' && Get(t', dst + q + [a]) == Some(OTHER) && Get(t', dst + [a]) == Some(MINE)
  {
    var t' := Cut(t, dst, q, a, 1);
    assert dst + q + [a] in Below(t', dst + q) && dst + q + [a] != dst + q;
    assert |Deep(dst, q, 1)| > |dst + [a]|;
  }

  lemma {:induction false} ChainStays(t: Tree, t1: Tree, dst: Path, q: Path, a: Name)
    requires Starting(t, dst, q, a) && t1 == Replacing(t, dst + q + [a], dst + [a])
    ensures Chain(t1, dst, q, a) && dst + q + [a] !in t1
  {
    assert q[..1] == [q[0]];
    assert Deep(dst, q, 1) == dst + q + [q[0]];
    forall j | 0 <= j <= |q| ensures Get(t1, Shallow(dst, q, j)) == Some(Dir) && Get(t1, Deep(dst, q, j)) == Some(Dir) {
      assert Get(t, Shallow(dst, q, j)) == Some(Dir) && Get(t, Deep(dst, q, j)) == Some(Dir);
    }
    assert |Deep(dst, q, |q|) + [a]| > |dst + q + [a]| > |dst + [a]|;
  }

  /** The chain is listed first: its file replaces file `a`, and is then moved in its stead. */
  lemma {:induction false} ChainFirst(t: Tree, dst: Path, q: Path, a: Name, flags: Flags) returns (t': Tree)
    requires Starting(t, dst, q, a) && flags.integrate && flags.replace
    ensures MoveRun(t, dst + q, dst, flags, t', 1, false)
    ensures forall p :: Get(t', p) != Some(MINE)
  {
    var src := dst + q;
    StartingListings(t, dst, q, a);
    GuardLetsAncestorPass(dst, q);
    GuardForEntry(src, dst, a);
    assert (dst + [a])[..|dst|] == dst;
    var t1 := ChainMoves(t, dst, q, a, flags);
    CutKeepsTop(t, dst, q, a);
    var t2 := LeafRun(t1, src + [a], dst + [a], flags);
    TwoEntriesRun(t, t1, t2, src, dst, flags, [Entry(q[0], Dir), Entry(a, MINE)], q[0], a);
    t' := ClosedRun(t, t2, src, dst, flags);
    MineIsGone(t, t2, t', dst, q, a);
  }

  lemma {:induction false} CutKeepsTop(t: Nodes, dst: Path, q: Path, a: Name)
    requires Starting(t, dst, q, a)
    ensures var t1 := Cut(t, dst, q, a, 1);
      ParentIsDir(t1, dst + [a]) && Get(t1, dst + [a]) == None && Get(t1, dst + q + [a]) == Some(OTHER)
  {
    assert !(Deep(dst, q, 1) <= dst) && !(Deep(dst, q, 1) <= dst + [a]);
    assert (dst + [a])[..|dst|] == dst && Get(t, dst) == Some(Dir) && dst + [a] != dst + q + [a];
    assert dst != dst + q + [a];
  }

  lemma {:induction false} MineIsGone(t: Nodes, t2: Nodes, t': Nodes, dst: Path, q: Path, a: Name)
    requires Starting(t, dst, q, a) && dst + q + [a] in Cut(t, dst, q, a, 1)
    requires t2 == Replacing(Cut(t, dst, q, a, 1), dst + q + [a], dst + [a]) && t' == Closed(t2, dst + q)
    ensures forall p :: Get(t', p) != Some(MINE)
  {
    forall p ensures Get(t', p) != Some(MINE) { assert Get(t, p) == Some(MINE) <==> p == dst + q + [a]; }
  }

  lemma {:induction false} ClosedRun(t: Tree, t1: Tree, src: Path, dst: Path, flags: Flags) returns (t': Tree)
    requires src != [] && dst != [] && GuardPasses(Render(src), Render(dst)) && flags.integrate
    requires Get(t, src) == Some(Dir) && Get(t, dst) == Some(Dir) && MergeRun(t, src, dst, flags, t1, 1, false)
    ensures MoveRun(t, src, dst, flags, t', 1, false) && t' == Closed(t1, src)
  {
    var closed := Closed(t1, src);
    assert WellFormed(closed) by { if closed != t1 { WithoutLeaf(t1, src); } }
    t' := closed;
    MergedRun(t, t1, t', src, dst, flags, 1, 1, false, false);
  }

  // ----- What the law fails by -----

  /** For every path and every ancestor of it, merging can break the law without any device failure,
      whether or not files are replaced. So it holds of all moves of a directory if and only if
      they are not merges into an ancestor: see MovePath.Separate. */
  lemma {:induction false} NestedMergeBreaksLaw(dst: Path, q: Path, flags: Flags) returns (t: Tree, t': Tree)
    requires dst != [] && q != [] && flags.integrate
    ensures GuardPasses(Render(dst + q), Render(dst))
    ensures MoveRun(t, dst + q, dst, flags, t', 1, false) && !Conserved(t, t', dst + q, dst, flags, false)
  {
    var a: Name := q[0] + "a";
    WorldFacts(dst, q, a);
    GuardLetsAncestorPass(dst, q);
    t := World(dst, q, a);
    t' := FileFirst(t, dst, q, a, flags);
    LawBroken(t, t', dst + q, dst, flags, [a]);
  }

  lemma {:induction false} LawBroken(t: Nodes, t': Nodes, src: Path, dst: Path, flags: Flags, r: Path)
    requires At(t, src, r) == Some(MINE) && At(t', src, r) == Some(OTHER)
    ensures !Conserved(t, t', src, dst, flags, false)
  {
    assert !Fate(t, t', src, dst, flags, false, r);
  }

  /** With both flags a file of the source can be lost altogether by a move that reports success, and
      another order of listing the same directory keeps it: the outcome is not one. */
  lemma {:induction false} NestedMergeLoses(dst: Path, q: Path) returns (t: Tree, r: Path, lost: Tree, kept: Tree)
    requires dst != [] && q != []
    ensures var both := Flags(true, true);
      MoveRun(t, dst + q, dst, both, lost, 1, false) && MoveRun(t, dst + q, dst, both, kept, 1, false)
    ensures At(t, dst + q, r).Some? && At(t, dst + q, r).value.File?
    ensures forall p :: Get(lost, p) != At(t, dst + q, r)
    ensures At(kept, dst, r) == At(t, dst + q, r)
  {
    var a: Name := q[0] + "a";
    WorldFacts(dst, q, a);
    t, r := World(dst, q, a), [a];
    lost := ChainFirst(t, dst, q, a, Flags(true, true));
    kept := FileFirst(t, dst, q, a, Flags(true, true));
    assert Get(t, dst + q + [a]) == Some(MINE);
  }
}
