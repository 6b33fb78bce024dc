/** Trees on which merging a directory into one of its own ancestors goes wrong. The guards of
    movePath and copyPath let such paths pass. */
module NestedPaths {
  import opened Common
  import opened PathText
  import opened FileTree
  import opened Storage

  // ----- The guard -----

  lemma {:induction false} GuardLetsAncestorPass(dst: Path, q: Path)
    requires dst != [] && q != []
    ensures GuardPasses(Render(dst + q), Render(dst))
  {
    GuardRejects(dst + q, dst);
  }

  // ----- A tree on which it fails -----

  const MINE: Node := File([1])
  const OTHER: Node := File([2])

  /** Below `dst + q` hangs another chain of directories `q`, and file `a` at its end. A merge of
      `dst + q` into `dst` moves that file to `dst + q + [a]`. */
  ghost predicate Chain(t: Nodes, dst: Path, q: Path, a: Name) {
    && dst != [] && q != [] && a != q[0]
    && (forall j :: 0 <= j <= |q| ==> Get(t, Shallow(dst, q, j)) == Some(Dir) && Get(t, Deep(dst, q, j)) == Some(Dir))
    && Get(t, dst + q + [a]) != Some(Dir) && Get(t, Deep(dst, q, |q|) + [a]) == Some(OTHER)
    && (forall p :: p in t && Deep(dst, q, 1) <= p ==> OnChain(dst, q, a, p))
  }

  ghost function Shallow(dst: Path, q: Path, j: nat): Path
    requires j <= |q|
  {
    dst + q[..j]
  }

  ghost function Deep(dst: Path, q: Path, j: nat): Path
    requires j <= |q|
  {
    dst + q + q[..j]
  }

  ghost predicate OnChain(dst: Path, q: Path, a: Name, p: Path) {
    (exists j :: 1 <= j <= |q| && p == Deep(dst, q, j)) || p == Deep(dst, q, |q|) + [a]
  }

  lemma {:induction false} DeepSteps(dst: Path, q: Path, j: nat)
    requires j < |q|
    ensures Deep(dst, q, j + 1) == Deep(dst, q, j) + [q[j]]
    ensures Shallow(dst, q, j + 1) == Shallow(dst, q, j) + [q[j]]
  {
    assert q[..j + 1] == q[..j] + [q[j]];
  }

  lemma {:induction false} DeepOrder(dst: Path, q: Path, i: nat, j: nat)
    requires i <= j <= |q|
    ensures Deep(dst, q, i) <= Deep(dst, q, j)
  {
    assert q[..i] == q[..j][..i];
  }

  lemma {:induction false} NotBelowChain(dst: Path, q: Path, a: Name, j: nat)
    requires 1 <= j <= |q| && a != q[0]
    ensures !(Deep(dst, q, j) <= dst + q + [a])
  {
    DeepOrder(dst, q, 1, j);
    assert q[..1] == [q[0]];
    assert Deep(dst, q, 1)[|dst + q|] == q[0] && (dst + q + [a])[|dst + q|] == a;
  }

  lemma {:induction false} ChainListing(t: Tree, dst: Path, q: Path, a: Name, j: nat)
    requires Chain(t, dst, q, a) && 1 <= j <= |q|
    ensures Lists(t, Deep(dst, q, j), [if j == |q| then Entry(a, OTHER) else Entry(q[j], Dir)])
  {
    var path := Deep(dst, q, j);
    var e := if j == |q| then Entry(a, OTHER) else Entry(q[j], Dir);
    if j < |q| {
      DeepSteps(dst, q, j);
      assert Get(t, Deep(dst, q, j + 1)) == Some(Dir);
    }
    forall n: Name | path + [n] in t ensures n in Done([e], 1) {
      DeepOrder(dst, q, 1, j);
      assert Deep(dst, q, 1) <= path + [n];
      assert OnChain(dst, q, a, path + [n]);
      assert |path + [n]| == |dst + q| + j + 1 && (path + [n])[|path|] == n;
      if path + [n] == Deep(dst, q, |q|) + [a] {
        assert j == |q|;
      } else {
        var i :| 1 <= i <= |q| && path + [n] == Deep(dst, q, i);
        assert i == j + 1;
      }
      assert n == e.name;
      assert Done([e], 1) == {e.name};
    }
  }

  lemma {:induction false} BelowChain(t: Tree, dst: Path, q: Path, a: Name, j: nat, p: Path)
    requires Chain(t, dst, q, a) && 1 <= j < |q| && p in t && Deep(dst, q, j) <= p
    ensures p == Deep(dst, q, j) || Deep(dst, q, j + 1) <= p
  {
    DeepOrder(dst, q, 1, j);
    assert OnChain(dst, q, a, p);
    if p == Deep(dst, q, |q|) + [a] {
      DeepOrder(dst, q, j + 1, |q|);
    } else {
      var i :| 1 <= i <= |q| && p == Deep(dst, q, i);
      if i > j { DeepOrder(dst, q, j + 1, i); }
    }
  }

  lemma {:induction false} GuardsPass(dst: Path, q: Path, j: nat)
    requires dst != [] && q != [] && j <= |q|
    ensures GuardPasses(Render(Deep(dst, q, j)), Render(Shallow(dst, q, j)))
  {
    if j == 0 {
      GuardLetsAncestorPass(dst, q);
      assert Deep(dst, q, 0) == dst + q && Shallow(dst, q, 0) == dst;
    } else {
      GuardsPass(dst, q, j - 1);
      DeepSteps(dst, q, j - 1);
      GuardForEntry(Deep(dst, q, j - 1), Shallow(dst, q, j - 1), q[j - 1]);
    }
  }

  lemma {:induction false} ChainLinks(t: Nodes, dst: Path, q: Path, a: Name, j: nat)
    requires Chain(t, dst, q, a) && j <= |q|
    ensures Get(t, Deep(dst, q, j)) == Some(Dir) && Get(t, Shallow(dst, q, j)) == Some(Dir)
    ensures Deep(dst, q, j) != [] && Shallow(dst, q, j) != []
  {
  }

  /** The source holds file `a` and the chain; nothing else holds what file `a` does. */
  ghost predicate Starting(t: Nodes, dst: Path, q: Path, a: Name) {
    && Chain(t, dst, q, a)
    && Get(t, dst + q) == Some(Dir) && Get(t, dst) == Some(Dir) && Get(t, dst + [a]) == None
    && (forall n: Name :: dst + q + [n] in t <==> n == a || n == q[0])
    && (forall p :: Get(t, p) == Some(MINE) <==> p == dst + q + [a])
  }

  lemma {:induction false} ListsTwo(t: Nodes, path: Path, e: Entry, f: Entry)
    requires Get(t, path + [e.name]) == Some(e.node) && Get(t, path + [f.name]) == Some(f.node) && e.name != f.name
    requires forall n: Name :: path + [n] in t ==> n == e.name || n == f.name
    ensures Lists(t, path, [e, f])
  {
    var entries := [e, f];
    assert entries[0] == e && entries[1] == f;
    assert Done(entries, 0) == {} && Done(entries, 1) == {e.name} && Done(entries, 2) == {e.name, f.name};
  }

  lemma {:induction false} StartingListings(t: Tree, dst: Path, q: Path, a: Name)
    requires Starting(t, dst, q, a)
    ensures Lists(t, dst + q, [Entry(a, MINE), Entry(q[0], Dir)])
            && Lists(t, dst + q, [Entry(q[0], Dir), Entry(a, MINE)])
    ensures Deep(dst, q, 1) == dst + q + [q[0]] && Shallow(dst, q, 1) == dst + [q[0]]
  {
    assert q[..1] == [q[0]];
    assert Get(t, Deep(dst, q, 1)) == Some(Dir) && Get(t, dst + q + [a]) == Some(MINE);
    ListsTwo(t, dst + q, Entry(a, MINE), Entry(q[0], Dir));
    ListsTwo(t, dst + q, Entry(q[0], Dir), Entry(a, MINE));
  }

  /** There is such a tree for all paths. */
  ghost function World(dst: Path, q: Path, a: Name): Nodes {
    var chain := dst + q + q;
    (map p | p in Prefixes(chain) :: Dir)[dst + q + [a] := MINE][chain + [a] := OTHER]
  }

  lemma {:induction false} WorldGet(dst: Path, q: Path, a: Name, p: Path)
    requires q != [] && a != q[0]
    ensures var chain := dst + q + q;
      Get(World(dst, q, a), p) == if p == chain + [a] then Some(OTHER) else if p == dst + q + [a] then Some(MINE)
                                  else if p != [] && p <= chain then Some(Dir) else None
  {
    var chain := dst + q + q;
    if p != [] && p <= chain {
      assert p == chain[..|p|];
    }
  }

  lemma {:induction false} WorldIsTree(dst: Path, q: Path, a: Name)
    requires dst != [] && q != [] && a != q[0]
    ensures WellFormed(World(dst, q, a))
  {
    var t, chain := World(dst, q, a), dst + q + q;
    forall p | p in t ensures ParentIsDir(t, p) {
      WorldGet(dst, q, a, p);
      if |p| > 1 {
        var up := p[..|p| - 1];
        WorldGet(dst, q, a, up);
        NotOnWay(dst, q, a);
        assert up <= chain;
      }
    }
  }

  lemma {:induction false} NotOnWay(dst: Path, q: Path, a: Name)
    requires q != [] && a != q[0]
    ensures !(dst + q + [a] <= dst + q + q) && !(dst + q + [a] <= dst + q + q + [a])
    ensures !(dst + q + q + [a] <= dst + q + q) && !(Deep(dst, q, 1) <= dst + q + [a])
    ensures !(dst + [a] <= dst + q + q) && dst + [a] != dst + q + [a]
  {
    assert q[..1] == [q[0]];
    assert (dst + q + q)[|dst + q|] == q[0] && (dst + q + q)[|dst|] == q[0];
    assert (dst + q + [a])[|dst + q|] == a && (dst + [a])[|dst|] == a;
    assert Deep(dst, q, 1)[|dst + q|] == q[0];
  }

  lemma {:induction false} WorldFacts(dst: Path, q: Path, a: Name)
    requires dst != [] && q != [] && a != q[0]
    ensures WellFormed(World(dst, q, a)) && Starting(World(dst, q, a), dst, q, a)
  {
    var t, chain := World(dst, q, a), dst + q + q;
    WorldIsTree(dst, q, a);
    NotOnWay(dst, q, a);
    assert chain == Deep(dst, q, |q|) by { assert q[..|q|] == q; }
    WorldChain(dst, q, a);
    WorldGet(dst, q, a, chain + [a]);
    WorldGet(dst, q, a, dst + q + [a]);
    WorldGet(dst, q, a, dst + [a]);
    WorldGet(dst, q, a, dst + q);
    WorldGet(dst, q, a, dst);
    forall p ensures Get(t, p) == Some(MINE) <==> p == dst + q + [a] { WorldGet(dst, q, a, p); }
    forall n: Name ensures dst + q + [n] in t <==> n == a || n == q[0] {
      WorldGet(dst, q, a, dst + q + [n]);
      assert (dst + q + [n])[|dst + q|] == n && chain[|dst + q|] == q[0];
      assert n == q[0] ==> dst + q + [n] == chain[..|dst + q| + 1];
    }
  }

  lemma {:induction false} WorldChain(dst: Path, q: Path, a: Name)
    requires dst != [] && q != [] && a != q[0]
    ensures var t := World(dst, q, a);
      && (forall j :: 0 <= j <= |q| ==> Get(t, Shallow(dst, q, j)) == Some(Dir) && Get(t, Deep(dst, q, j)) == Some(Dir))
      && (forall p :: p in t && Deep(dst, q, 1) <= p ==> OnChain(dst, q, a, p))
  {
    var t, chain := World(dst, q, a), dst + q + q;
    NotOnWay(dst, q, a);
    forall j | 0 <= j <= |q| ensures Get(t, Shallow(dst, q, j)) == Some(Dir) && Get(t, Deep(dst, q, j)) == Some(Dir) {
      assert Shallow(dst, q, j) == chain[..|dst| + j] && Deep(dst, q, j) == chain[..|dst + q| + j];
      WorldGet(dst, q, a, Shallow(dst, q, j));
      WorldGet(dst, q, a, Deep(dst, q, j));
    }
    forall p | p in t && Deep(dst, q, 1) <= p ensures OnChain(dst, q, a, p) {
      WorldGet(dst, q, a, p);
      if p == chain + [a] {
        assert q[..|q|] == q;
      } else {
        var i := |p| - |dst + q|;
        assert p == chain[..|p|] && q[..i] == chain[|dst + q|..|p|];
        assert p == Deep(dst, q, i);
      }
    }
  }
}
