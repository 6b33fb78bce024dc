/** Paths as the C strings that src/file.c compares and joins. */
module PathText {

  /** One component of a path. */
  type Name = s: string | s != "" && '/' !in s witness "a"

  /** A path by components, the device first: ["ux0:", "app"] is "ux0:/app". */
  type Path = seq<Name>

  function Lower(c: char): char {
    if 'A' <= c <= 'Z' then ((c as int) + 32) as char else c
  }

  /** strcasecmp(a, b) == 0 */
  predicate SameText(a: string, b: string) {
    |a| == |b| && forall i :: 0 <= i < |a| ==> Lower(a[i]) == Lower(b[i])
  }

  predicate HasEndSlash(s: string) { s != "" && s[|s| - 1] == '/' }

  /** The path without the slash that the join leaves out. */
  function Strip(s: string): string { if HasEndSlash(s) then s[..|s| - 1] else s }

  /** The second guard: strncasecmp over strlen(src), then the byte at or before that length. */
  predicate Subfolder(src: string, dst: string)
    requires src != ""
  {
    var len := |src|;
    && len <= |dst|
    && SameText(src, dst[..len])
    && ((len < |dst| && dst[len] == '/') || dst[len - 1] == '/')
  }

  /** What copyFile, copyPath and movePath check before touching anything. */
  predicate GuardPasses(src: string, dst: string)
    requires src != ""
  {
    !SameText(src, dst) && !Subfolder(src, dst)
  }

  /** The path built for a directory entry. */
  function Child(path: string, name: Name): (s: string)
    ensures s != ""
  {
    path + (if HasEndSlash(path) then "" else "/") + name
  }

  lemma {:induction false} JoinedTextSame(src: string, dst: string, name: Name)
    ensures SameText(Child(src, name), Child(dst, name)) <==> SameText(Strip(src), Strip(dst))
  {
    var s0, d0 := Strip(src), Strip(dst);
    var s, d := s0 + "/" + name, d0 + "/" + name;
    assert s == Child(src, name) && d == Child(dst, name);
    assert |s| == |d| ==> forall i :: 0 <= i < |s0| ==> s0[i] == s[i] && d0[i] == d[i];
  }

  /** A guard failure of an entry is a guard failure of the directories. */
  lemma {:induction false} SubfolderLifts(src: string, dst: string, name: Name)
    requires src != "" && dst != ""
    requires Subfolder(Child(src, name), Child(dst, name))
    ensures SameText(src, dst) || Subfolder(src, dst)
  {
    var s0 := Strip(src);
    var s, d := Child(src, name), Child(dst, name);
    assert s == s0 + "/" + name && d == Strip(dst) + "/" + name;
    assert Lower(s[|s| - 1]) == Lower(d[..|s|][|s| - 1]);
    assert s[|s| - 1] == name[|name| - 1];
    assert d[|s|] == '/' && |s0| < |Strip(dst)|;
    assert Lower(s[|s0|]) == Lower(d[..|s|][|s0|]);
    assert dst[|s0|] == '/';
    assert forall i :: 0 <= i < |s0| ==> src[i] == s[i] && dst[i] == d[..|s|][i];
    assert SameText(src, dst[..|src|]);
  }

  /** The guard descends: once it has passed, it passes for an entry of the directory if and
      only if the two paths differ by more than one trailing slash. */
  lemma {:induction false} GuardUnderDescent(src: string, dst: string, name: Name)
    requires src != "" && dst != "" && GuardPasses(src, dst)
    ensures GuardPasses(Child(src, name), Child(dst, name)) <==> !SameText(Strip(src), Strip(dst))
  {
    JoinedTextSame(src, dst, name);
    if Subfolder(Child(src, name), Child(dst, name)) {
      SubfolderLifts(src, dst, name);
      assert false;
    }
  }

  /** Without trailing slashes the two guard errors can only arise at the top of a recursion. */
  lemma {:induction false} GuardIsStable(src: string, dst: string, name: Name)
    requires src != "" && dst != "" && !HasEndSlash(src) && !HasEndSlash(dst)
    requires GuardPasses(src, dst)
    ensures GuardPasses(Child(src, name), Child(dst, name))
  {
    GuardUnderDescent(src, dst, name);
  }

  /** The exception is real: "ux0:app/" against "ux0:app" passes, and every entry then fails. */
  lemma {:induction false} TrailingSlashSlipsThrough(dst: string, name: Name)
    requires dst != "" && !HasEndSlash(dst)
    ensures GuardPasses(dst + "/", dst) && SameText(Child(dst + "/", name), Child(dst, name))
  {
    assert Strip(dst + "/") == dst;
    assert Child(dst + "/", name) == dst + "/" + name;
  }

  /** The C string of a path. */
  function Render(p: Path): (s: string)
    requires p != []
    ensures s != "" && !HasEndSlash(s)
  {
    var last := p[|p| - 1];
    if |p| == 1 then last else Child(Render(p[..|p| - 1]), last)
  }

  lemma {:induction false} RenderChild(p: Path, name: Name)
    requires p != []
    ensures Render(p + [name]) == Child(Render(p), name)
  {
    assert (p + [name])[..|p|] == p;
  }

  // ----- What the guard decides -----

  /** The letters that strcasecmp takes for the same: a capital and its small one. */
  lemma {:induction false} SameLetter(c: char, d: char)
    ensures Lower(c) == Lower(d) <==>
              c == d || exists k :: 0 <= k < 26 && {c, d} == {CAPITALS[k], SMALLS[k]}
  {
    Letters(c);
    Letters(d);
    if Lower(c) == Lower(d) && c != d {
      var k := if 'A' <= c <= 'Z' then c as int - 'A' as int else d as int - 'A' as int;
      assert {c, d} == {CAPITALS[k], SMALLS[k]};
    }
    forall k | 0 <= k < 26 ensures {c, d} == {CAPITALS[k], SMALLS[k]} ==> Lower(c) == Lower(d) {
      assert c in {c, d} && d in {c, d} && CAPITALS[k] in {CAPITALS[k], SMALLS[k]};
    }
  }

  const CAPITALS := "ABCDEFGHIJKLMNOPQRSTUVWXYZ"
  const SMALLS := "abcdefghijklmnopqrstuvwxyz"

  lemma {:induction false} Letters(c: char)
    ensures 'A' <= c <= 'Z' ==> var k := c as int - 'A' as int; c == CAPITALS[k] && Lower(c) == SMALLS[k]
    ensures forall k :: 0 <= k < 26 ==> Lower(CAPITALS[k]) == SMALLS[k] && Lower(SMALLS[k]) == SMALLS[k]
  {
  }

  function Small(s: string): (r: string)
    ensures |r| == |s| && forall i :: 0 <= i < |s| ==> r[i] == Lower(s[i])
  {
    seq(|s|, i requires 0 <= i < |s| => Lower(s[i]))
  }
  /** A path in small letters. */
  function Folded(p: Path): (q: Path)
    ensures |q| == |p| && forall i :: 0 <= i < |p| ==> q[i] == Small(p[i])
  {
    seq(|p|, i requires 0 <= i < |p| => FoldedName(p[i]))
  }
  function FoldedName(n: Name): (r: Name)
    ensures r == Small(n)
  {
    assert forall i :: 0 <= i < |n| ==> n[i] in n;
    Small(n)
  }

  lemma {:induction false} SmallConcat(a: string, b: string)
    ensures Small(a + b) == Small(a) + Small(b)
  {
  }

  lemma {:induction false} RenderFolded(p: Path)
    requires p != []
    ensures Render(Folded(p)) == Small(Render(p))
  {
    if |p| > 1 {
      var up, last := p[..|p| - 1], p[|p| - 1];
      RenderFolded(up);
      assert Folded(p)[..|p| - 1] == Folded(up);
      SmallConcat(Render(up) + "/", last);
      SmallConcat(Render(up), "/");
      assert Small("/") == "/";
    }
  }

  lemma {:induction false} RenderJoin(p: Path, q: Path)
    requires p != [] && q != []
    ensures Render(p + q) == Render(p) + "/" + Render(q)
  {
    var last := q[|q| - 1];
    if |q| > 1 {
      var up := q[..|q| - 1];
      RenderJoin(p, up);
      assert (p + q)[..|p + q| - 1] == p + up;
      JoinedTexts(Render(p), Render(up), last);
    } else {
      assert (p + q)[..|p|] == p;
    }
  }

  lemma {:induction false} JoinedTexts(a: string, b: string, c: string)
    ensures a + "/" + b + "/" + c == a + "/" + (b + "/" + c)
  {
  }

  /** The names of a path, each followed by a slash. */
  function Slashed(p: Path): string {
    if p == [] then "" else p[0] + "/" + Slashed(p[1..])
  }

  lemma {:induction false} SlashedLast(p: Path)
    requires p != []
    ensures Slashed(p) == Slashed(p[..|p| - 1]) + p[|p| - 1] + "/"
  {
    if |p| > 1 {
      SlashedLast(p[1..]);
      assert p[1..][..|p| - 2] == p[..|p| - 1][1..];
    }
  }

  lemma {:induction false} RenderSlashed(p: Path)
    requires p != []
    ensures Render(p) + "/" == Slashed(p)
  {
    SlashedLast(p);
    if |p| > 1 { RenderSlashed(p[..|p| - 1]); }
  }

  /** The text of a path decides its names. */
  lemma {:induction false} SlashedDecides(p: Path, q: Path)
    ensures Slashed(p) <= Slashed(q) <==> p <= q
  {
    if p != [] && q != [] {
      if p[0] == q[0] {
        SlashedDecides(p[1..], q[1..]);
        SameFront(p[0] + "/", Slashed(p[1..]), Slashed(q[1..]));
        SameFront([p[0]], p[1..], q[1..]);
        assert p == [p[0]] + p[1..] && q == [q[0]] + q[1..];
      } else {
        OtherName(p[0], q[0], Slashed(p), Slashed(q));
      }
    }
  }

  lemma {:induction false} SameFront<T>(a: seq<T>, s: seq<T>, t: seq<T>)
    ensures a + s <= a + t <==> s <= t
  {
    assert (a + s)[|a|..] == s && (a + t)[|a|..] == t;
    if a + s <= a + t { assert s == (a + t)[..|a + s|][|a|..] == t[..|s|]; }
  }

  lemma {:induction false} OtherName(a: Name, b: Name, s: string, t: string)
    requires a + "/" <= s && b + "/" <= t && a != b
    ensures !(s <= t)
  {
    if |a| < |b| {
      assert b[|a|] in b;
      assert s[|a|] == '/' && t[|a|] == b[|a|];
    } else if |b| < |a| {
      assert a[|b|] in a;
      assert t[|b|] == '/' && s[|b|] == a[|b|];
    } else {
      assert s[..|a|] == a && t[..|a|] == b;
    }
  }

  lemma {:induction false} SmallTexts(a: string, b: string)
    ensures SameText(a, b) <==> Small(a) == Small(b)
  {
    assert Small(a) == Small(b) ==> forall i :: 0 <= i < |a| ==> Small(a)[i] == Small(b)[i];
  }

  lemma {:induction false} TextsDecide(s: string, t: string)
    ensures s == t <==> s + "/" <= t + "/" && t + "/" <= s + "/"
    ensures s + "/" <= t <==> s + "/" <= t + "/" && !(t + "/" <= s + "/")
  {
    if s + "/" <= t + "/" {
      assert |s| == |t| ==> s == (t + "/")[..|s|] == t;
      assert |s| < |t| ==> s + "/" == (t + "/")[..|s| + 1] == t[..|s| + 1];
    }
    if s + "/" <= t { assert s + "/" == t[..|s| + 1] == (t + "/")[..|s| + 1]; }
  }

  lemma {:induction false} SubfolderText(src: string, dst: string)
    requires src != "" && !HasEndSlash(src)
    ensures Subfolder(src, dst) <==> Small(src) + "/" <= Small(dst)
  {
    var n := |src|;
    if n < |dst| {
      SmallTexts(src, dst[..n]);
      SmallConcat(dst[..n], dst[n..]);
      assert dst == dst[..n] + dst[n..];
      assert Small(dst)[n] == Lower(dst[n]) && (Lower(dst[n]) == '/' <==> dst[n] == '/');
      assert Small(dst[..n]) == Small(dst)[..n];
    }
    if n <= |dst| && SameText(src, dst[..n]) { assert Lower(src[n - 1]) == Lower(dst[n - 1]); }
    if Small(src) + "/" <= Small(dst) {
      assert Small(src) == (Small(src) + "/")[..n] == Small(dst)[..n] && Small(dst)[n] == '/';
    }
  }
  /** The comparison and the guard in terms of paths: up to case, the destination is the source, or
      lies below it. */
  lemma {:induction false} GuardRejects(src: Path, dst: Path)
    requires src != [] && dst != []
    ensures SameText(Render(src), Render(dst)) <==> Folded(src) == Folded(dst)
    ensures Subfolder(Render(src), Render(dst)) <==> Folded(src) < Folded(dst)
  {
    var s, t := Small(Render(src)), Small(Render(dst));
    RenderFolded(src);
    RenderFolded(dst);
    RenderSlashed(Folded(src));
    RenderSlashed(Folded(dst));
    SlashedDecides(Folded(src), Folded(dst));
    SlashedDecides(Folded(dst), Folded(src));
    SmallTexts(Render(src), Render(dst));
    TextsDecide(s, t);
    SubfolderText(Render(src), Render(dst));
  }

  /** What lies at or below the source is recognised by the guard. */
  lemma {:induction false} BelowFailsGuard(src: Path, dst: Path)
    requires src != [] && src <= dst
    ensures SameText(Render(src), Render(dst)) || Subfolder(Render(src), Render(dst))
  {
    GuardRejects(src, dst);
    assert Folded(src) <= Folded(dst);
  }

  /** movePath and copyPath pass the guard at every recursive call once it passes at the top. */
  lemma {:induction false} GuardForEntry(src: Path, dst: Path, name: Name)
    requires src != [] && dst != [] && GuardPasses(Render(src), Render(dst))
    ensures GuardPasses(Render(src + [name]), Render(dst + [name]))
  {
    RenderChild(src, name);
    RenderChild(dst, name);
    GuardIsStable(Render(src), Render(dst), name);
  }
}
