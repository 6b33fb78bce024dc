/** A directory tree as a finite map from paths to nodes. */
module FileTree {
  import opened Common
  import opened PathText

  datatype Node = Dir | File(data: seq<Byte>)

  predicate ParentIsDir(t: Nodes, p: Path) {
    p != [] && (|p| > 1 ==> p[..|p| - 1] in t && t[p[..|p| - 1]].Dir?)
  }

  ghost predicate WellFormed(t: Nodes) {
    forall p {:trigger ParentIsDir(t, p)} :: p in t ==> ParentIsDir(t, p)
  }

  type Nodes = map<Path, Node>

  type Tree = t: Nodes | WellFormed(t) witness map[]

  /** The node at relative path `r` under `base`. */
  ghost function At(t: Nodes, base: Path, r: Path): Option<Node> {
    if base + r in t then Some(t[base + r]) else None
  }

  ghost function Get(t: Nodes, p: Path): Option<Node> {
    if p in t then Some(t[p]) else None
  }

  /** Neither path lies at or below the other. */
  predicate Apart(src: Path, dst: Path) { !(src <= dst) && !(dst <= src) }

  /** Nothing changes but at or below the two paths. */
  ghost predicate SameOutside(t: Nodes, t': Nodes, src: Path, dst: Path) {
    forall p :: !(src <= p) && !(dst <= p) ==> Get(t', p) == Get(t, p)
  }

  lemma {:induction false} AtStep(t: Nodes, base: Path, n: Name, r: Path)
    ensures At(t, base + [n], r) == At(t, base, [n] + r)
  {
    assert base + ([n] + r) == (base + [n]) + r;
  }

  lemma {:induction false} Ancestors(t: Tree, q: Path, p: Path)
    requires q != [] && q <= p && p in t
    ensures q in t && (q != p ==> t[q].Dir?)
    decreases |p|
  {
    if q != p {
      assert ParentIsDir(t, p);
      var up := p[..|p| - 1];
      assert q <= up;
      Ancestors(t, q, up);
    }
  }

  ghost function Prefixes(p: Path): set<Path> {
    set i {:trigger p[..i]} | 1 <= i <= |p| :: p[..i]
  }

  /** A tree of one leaf and the directories on the way to it. */
  lemma {:induction false} OneLeaf(path: Path, node: Node) returns (t: Tree)
    requires path != []
    ensures forall p :: Get(t, p) ==
                          if p == path then Some(node) else if p != [] && p <= path then Some(Dir) else None
  {
    var nodes := (map p | p in Prefixes(path) :: Dir)[path := node];
    forall p ensures p in Prefixes(path) <==> p != [] && p <= path {
      if p != [] && p <= path { assert p == path[..|p|]; }
    }
    forall p | p in nodes ensures ParentIsDir(nodes, p) {
      if |p| > 1 { assert p[..|p| - 1] <= path; }
    }
    t := nodes;
  }

  /** The paths at or below `base`. */
  ghost function Below(t: Nodes, base: Path): set<Path> {
    set p | p in t && base <= p
  }

  lemma {:induction false} SameNodes(a: Nodes, b: Nodes)
    requires forall p :: Get(a, p) == Get(b, p)
    ensures a == b
  {
    assert forall p :: p in a ==> Get(a, p).Some? && Get(b, p).Some?;
    assert forall p :: p in b ==> Get(a, p).Some? && Get(b, p).Some?;
  }

  // ----- Height, the measure of every recursion -----

  ghost function MaxLength(s: set<Path>): (m: nat)
    ensures forall p {:trigger p in s} :: p in s ==> |p| <= m
  {
    if s == {} then 0 else
      var p :| p in s;
      var m := MaxLength(s - {p});
      assert forall q {:trigger q in s} :: q in s && q != p ==> q in s - {p};
      if m < |p| then |p| else m
  }

  lemma {:induction false} MaxLengthAtMost(s: set<Path>, m: nat)
    requires forall p {:trigger p in s} :: p in s ==> |p| <= m
    ensures MaxLength(s) <= m
  {
    if s != {} {
      var p :| p in s && MaxLength(s) == if MaxLength(s - {p}) < |p| then |p| else MaxLength(s - {p});
      MaxLengthAtMost(s - {p}, m);
    }
  }

  /** How far the tree reaches below `base`. */
  ghost function Height(t: Nodes, base: Path): nat {
    var m := MaxLength(Below(t, base));
    if m > |base| then m - |base| else 0
  }

  lemma {:induction false} HeightBound(t: Nodes, base: Path, p: Path)
    requires p in t && base <= p
    ensures |p| <= |base| + Height(t, base)
  {
    assert p in Below(t, base);
  }

  lemma {:induction false} HeightAtMost(t: Nodes, base: Path, h: nat)
    requires forall p {:trigger p in t} :: p in t && base <= p ==> |p| <= |base| + h
    ensures Height(t, base) <= h
  {
    MaxLengthAtMost(Below(t, base), |base| + h);
  }

  lemma {:induction false} HeightShrinks(t: Nodes, base: Path, n: Name, h: nat)
    requires forall p {:trigger p in t} :: p in t && base <= p ==> |p| <= |base| + h
    requires h > 0
    ensures Height(t, base + [n]) < h
  {
    HeightAtMost(t, base + [n], h - 1);
  }

  lemma {:induction false} EntryLower(t: Nodes, base: Path, n: Name)
    requires base + [n] in t
    ensures Height(t, base + [n]) < Height(t, base)
  {
    HeightBound(t, base, base + [n]);
    forall p | p in t && base <= p ensures |p| <= |base| + Height(t, base) { HeightBound(t, base, p); }
    HeightShrinks(t, base, n, Height(t, base));
  }

  // ----- Rename -----

  function Renamed(t: Tree, src: Path, dst: Path): Nodes {
    var targets := set p | p in t && src <= p :: dst + p[|src|..];
    var kept := map p | p in t && !(src <= p) :: t[p];
    var moved := map p | p in targets && dst <= p && src + p[|dst|..] in t :: t[src + p[|dst|..]];
    kept + moved
  }

  predicate CanRename(t: Tree, src: Path, dst: Path) {
    src in t && dst !in t && !(src <= dst) && ParentIsDir(t, dst)
  }

  lemma {:induction false} RenamedGet(t: Tree, src: Path, dst: Path, p: Path)
    requires CanRename(t, src, dst)
    ensures Get(Renamed(t, src, dst), p) ==
            if dst <= p then Get(t, src + p[|dst|..]) else if src <= p then None else Get(t, p)
  {
    if dst <= p {
      if p in t { Ancestors(t, dst, p); assert false; }
      var q := src + p[|dst|..];
      assert q[|src|..] == p[|dst|..] && p == dst + p[|dst|..];
    }
  }

  /** A rename carries the whole subtree over and touches nothing else. */
  lemma {:induction false} RenamedFacts(t: Tree, src: Path, dst: Path)
    requires CanRename(t, src, dst)
    ensures Apart(src, dst)
    ensures forall r :: At(Renamed(t, src, dst), dst, r) == At(t, src, r)
    ensures forall r :: At(Renamed(t, src, dst), src, r) == None
    ensures SameOutside(t, Renamed(t, src, dst), src, dst)
  {
    if dst <= src { Ancestors(t, dst, src); assert false; }
    var t' := Renamed(t, src, dst);
    forall r ensures At(t', dst, r) == At(t, src, r) && At(t', src, r) == None {
      RenamedGet(t, src, dst, dst + r);
      RenamedGet(t, src, dst, src + r);
      assert (dst + r)[|dst|..] == r;
      if dst <= src + r { PrefixesOfOne(src, dst, src + r); assert false; }
    }
    forall p | !(src <= p) && !(dst <= p) ensures Get(t', p) == Get(t, p) {
      RenamedGet(t, src, dst, p);
    }
  }

  lemma {:induction false} RenamedParent(t: Tree, src: Path, dst: Path, p: Path)
    requires CanRename(t, src, dst) && p in Renamed(t, src, dst) && |p| > 1
    ensures Get(Renamed(t, src, dst), p[..|p| - 1]) == Some(Dir)
  {
    var up := p[..|p| - 1];
    RenamedGet(t, src, dst, p);
    RenamedGet(t, src, dst, up);
    if dst <= p && p != dst {
      var q := src + p[|dst|..];
      assert q[..|q| - 1] == src + up[|dst|..];
      assert ParentIsDir(t, q);
    } else {
      assert ParentIsDir(t, p);
      assert src <= up ==> src <= p;
      assert dst <= up ==> dst <= p;
    }
  }

  lemma {:induction false} RenamedIsTree(t: Tree, src: Path, dst: Path)
    requires CanRename(t, src, dst)
    ensures WellFormed(Renamed(t, src, dst))
  {
    var t' := Renamed(t, src, dst);
    forall p | p in t' ensures ParentIsDir(t', p) {
      if |p| == 0 {
        RenamedGet(t, src, dst, p);
        assert ParentIsDir(t, p);
      } else if |p| > 1 {
        RenamedParent(t, src, dst, p);
      }
    }
  }

  lemma {:induction false} PrefixesOfOne(a: Path, b: Path, p: Path)
    ensures a <= p && b <= p ==> a <= b || b <= a
  {
    if a <= p && b <= p {
      assert a == p[..|a|] && b == p[..|b|];
      if |a| <= |b| { assert a == b[..|a|]; } else { assert b == a[..|b|]; }
    }
  }

  // ----- Two directories side by side -----

  /** A file meets a directory. */
  ghost predicate ClashAt(t: Nodes, src: Path, dst: Path, r: Path) {
    At(t, src, r).Some? && At(t, dst, r).Some? && At(t, src, r).value.Dir? != At(t, dst, r).value.Dir?
  }

  lemma {:induction false} NotThrough(base: Path, other: Path, n: Name, r: Path)
    requires Apart(base, other) && (r == [] || r[0] != n)
    ensures !(base + [n] <= base + r) && !(other + [n] <= base + r)
  {
    if r != [] { assert (base + r)[|base|] == r[0] && (base + [n])[|base|] == n; }
    assert other + [n] <= base + r ==> other <= base + r;
    PrefixesOfOne(other, base, base + r);
  }

  /** What the recursion adds lies at or below the destination, no deeper than the source reached. */
  ghost predicate NewPathsShallow(t0: Nodes, t: Nodes, src: Path, dst: Path) {
    forall p {:trigger p in t} :: p in t && p !in t0 ==> dst <= p && |p| <= |dst| + Height(t0, src)
  }

  lemma {:induction false} RecursionShrinks(t0: Tree, t: Tree, src: Path, dst: Path, n: Name)
    requires !(src <= dst) && NewPathsShallow(t0, t, src, dst) && src + [n] in t0
    ensures Height(t, src + [n]) < Height(t0, src)
  {
    var h := Height(t0, src);
    HeightBound(t0, src, src + [n]);
    forall p | p in t && src <= p ensures |p| <= |src| + h {
      if p in t0 { HeightBound(t0, src, p); } else { PrefixesOfOne(src, dst, p); }
    }
    HeightShrinks(t, src, n, h);
  }

  lemma {:induction false} ShallowSteps(t0: Tree, t1: Tree, t2: Tree, src: Path, dst: Path, n: Name)
    requires !(src <= dst) && src + [n] in t0
    requires NewPathsShallow(t0, t1, src, dst)
    requires NewPathsShallow(t1, t2, src + [n], dst + [n])
    ensures NewPathsShallow(t0, t2, src, dst)
  {
    RecursionShrinks(t0, t1, src, dst, n);
  }
}
