/** Canonical absolute POSIX paths, kept as their component lists: "/" is []. */
module Paths {

  type Path = seq<string>

  /** `p` is `root` or lies below it. */
  predicate Within(root: Path, p: Path) {
    |root| <= |p| && p[..|root|] == root
  }

  function Parent(p: Path): Path
    requires p != []
  {
    p[..|p| - 1]
  }

  lemma PrefixParent(p: Path, k: nat)
    requires 1 <= k <= |p|
    ensures Parent(p[..k]) == p[..k - 1] && Within(p[..k], p)
  {
  }

  lemma SameLengthIsSame(a: Path, p: Path)
    requires Within(a, p)
    ensures |a| == |p| <==> a == p
  {
    assert p[..|p|] == p;
  }

  /** Replaces the leading `from` of `p` by `to`. */
  function Rebase(p: Path, from: Path, to: Path): (r: Path)
    requires Within(from, p)
    ensures Within(to, r)
  {
    to + p[|from|..]
  }

  /** Number of characters of the path text: each component costs its name and one '/'. */
  function TextLength(p: Path): nat {
    if p == [] then 0 else TextLength(Parent(p)) + 1 + |p[|p| - 1]|
  }

  lemma RebaseInverse(p: Path, from: Path, to: Path)
    requires Within(from, p)
    ensures Rebase(Rebase(p, from, to), to, from) == p
    ensures Rebase(p, from, to) == to <==> p == from
  {
    var r := Rebase(p, from, to);
    assert r[|to|..] == p[|from|..];
    assert p == p[..|from|] + p[|from|..];
    if r == to {
      assert |p| == |from|;
    }
  }

  lemma RebaseParent(p: Path, from: Path, to: Path)
    requires Within(from, p) && p != from
    ensures p != [] && Within(from, Parent(p)) && Rebase(p, from, to) != []
    ensures Rebase(Parent(p), from, to) == Parent(Rebase(p, from, to))
  {
    assert |p| > |from|;
    assert Parent(p)[..|from|] == from;
    assert p[|from|..][..|p| - 1 - |from|] == Parent(p)[|from|..];
  }

  lemma WithinTransitive(a: Path, b: Path, c: Path)
    requires Within(a, b) && Within(b, c)
    ensures Within(a, c)
  {
    assert c[..|a|] == c[..|b|][..|a|];
  }

  /** Two ancestors of one path are nested. */
  lemma AncestorsNested(a: Path, b: Path, p: Path)
    requires Within(a, p) && Within(b, p)
    ensures |a| <= |b| ==> Within(a, b)
    ensures |b| <= |a| ==> Within(b, a)
  {
    if |a| <= |b| {
      assert b[..|a|] == p[..|b|][..|a|];
    }
    if |b| <= |a| {
      assert a[..|b|] == p[..|a|][..|b|];
    }
  }

  lemma WithinParent(root: Path, p: Path)
    requires p != []
    ensures Within(root, p) && p != root ==> Within(root, Parent(p))
    ensures Within(root, Parent(p)) ==> Within(root, p) && p != root
  {
    if Within(root, p) && p != root {
      assert |root| < |p|;
      assert Parent(p)[..|root|] == p[..|root|];
    }
    if Within(root, Parent(p)) {
      assert p[..|root|] == Parent(p)[..|root|];
    }
  }

  /** A proper descendant has the longer text, which is what "children before parents" sorts rely on. */
  lemma {:induction false} DescendantIsLonger(root: Path, p: Path)
    requires Within(root, p) && p != root
    ensures TextLength(root) < TextLength(p)
    decreases |p|
  {
    WithinParent(root, p);
    if Parent(p) != root {
      DescendantIsLonger(root, Parent(p));
    }
  }

  lemma {:induction false} SomeLongest(s: set<Path>)
    requires s != {}
    ensures exists p :: p in s && forall q :: q in s ==> TextLength(q) <= TextLength(p)
    decreases |s|
  {
    var x :| x in s;
    if s != {x} {
      var rest := s - {x};
      SomeLongest(rest);
      var y :| y in rest && forall q :: q in rest ==> TextLength(q) <= TextLength(y);
      var best := if TextLength(x) <= TextLength(y) then y else x;
      assert forall q :: q in s ==> q == x || q in rest;
      assert best in s && forall q :: q in s ==> TextLength(q) <= TextLength(best);
    }
  }
}
