/** What an update leaves of the old plugin tree, and what it moves out of the way. */
module Staging {
  import opened Paths
  import opened Contracts
  import opened Filesystem

  /** The directories a release needs, relative to the plugin root. */
  ghost predicate NeedsDirectory(release: Release, rel: Path) {
    rel == [] || exists a :: a in release.assets && a != rel && Within(rel, a)
  }

  function DirectoriesOf(release: Release): (r: set<Path>)
    ensures forall rel :: rel in r <==> NeedsDirectory(release, rel)
  {
    var r := {[]} + set a: Path, k | a in release.assets && 0 <= k < |a| :: a[..k];
    assert forall rel :: rel in r <==> NeedsDirectory(release, rel) by {
      forall rel | rel != [] && NeedsDirectory(release, rel) ensures rel in r {
        var a :| a in release.assets && a != rel && Within(rel, a);
        SameLengthIsSame(rel, a);
        assert a[..|rel|] == rel;
      }
      forall rel | rel in r && rel != [] ensures NeedsDirectory(release, rel) {
        var a: Path, k :| a in release.assets && 0 <= k < |a| && a[..k] == rel;
        assert Within(rel, a) && a != rel;
      }
    }
    r
  }

  /** The source's two nested loops: from each asset upwards until the plugin root. */
  method ExpectedDirectories(release: Release) returns (result: set<Path>)
    ensures result == DirectoriesOf(release)
  {
    result := {[]};
    var todo := release.assets.Keys;
    while todo != {}
      invariant todo <= release.assets.Keys
      invariant forall rel :: rel in result <==>
        rel == [] || exists a :: a in release.assets.Keys - todo && a != rel && Within(rel, a)
      decreases |todo|
    {
      var a :| a in todo;
      ghost var before := result;
      var current := if a == [] then [] else Parent(a);
      while current != []
        invariant Within(current, a)
        invariant current != [] ==> current != a
        invariant forall rel :: rel in result <==>
          rel in before || (a != rel && Within(rel, a) && |rel| > |current|)
        decreases |current|
      {
        result := result + {current};
        ghost var was := current;
        current := Parent(current);
        assert Within(current, a) by { assert a[..|current|] == a[..|was|][..|current|]; }
        forall rel | Within(rel, a) && |rel| == |was| ensures rel == was { }
      }
      assert forall rel :: Within(rel, a) && |rel| == 0 ==> rel == [];
      todo := todo - {a};
    }
  }

  function Relative(root: Path, p: Path): Path
    requires Within(root, p)
  {
    p[|root|..]
  }

  function ObsoleteFiles(tree: Tree, root: Path, release: Release): set<Path> {
    set p | p in tree && Within(root, p) && p != root && tree[p].File? && Relative(root, p) !in release.assets
  }

  function ObsoleteDirectories(tree: Tree, root: Path, release: Release): set<Path> {
    set p | p in tree && Within(root, p) && p != root && tree[p].Dir? && Relative(root, p) !in DirectoriesOf(release)
  }

  predicate Covered(roots: set<Path>, p: Path) {
    exists r :: r in roots && Within(r, p)
  }

  /** The topmost obsolete directories. */
  function DirectoryRoots(tree: Tree, root: Path, release: Release): set<Path> {
    var dirs := ObsoleteDirectories(tree, root, release);
    set p | p in dirs && forall d :: d in dirs && d != p ==> !Within(d, p)
  }

  /** Everything that is renamed away: topmost obsolete directories, and the obsolete files outside them. */
  function StagedRoots(tree: Tree, root: Path, release: Release): set<Path> {
    var dirs := DirectoryRoots(tree, root, release);
    dirs + set p | p in ObsoleteFiles(tree, root, release) && !Covered(dirs, p)
  }

  /** Every obsolete directory has a topmost obsolete directory above it. */
  lemma {:induction false} TopmostAbove(tree: Tree, root: Path, release: Release, p: Path)
    requires p in ObsoleteDirectories(tree, root, release)
    ensures Covered(DirectoryRoots(tree, root, release), p)
    decreases |p|
  {
    var dirs := ObsoleteDirectories(tree, root, release);
    if d :| d in dirs && d != p && Within(d, p) {
      SameLengthIsSame(d, p);
      TopmostAbove(tree, root, release, d);
      var r :| r in DirectoryRoots(tree, root, release) && Within(r, d);
      WithinTransitive(r, d, p);
    } else {
      assert Within(p, p);
    }
  }

  /** Staged roots are pairwise non-nested. */
  lemma StagedNotNested(tree: Tree, root: Path, release: Release, a: Path, b: Path)
    requires Rooted(tree)
    requires a in StagedRoots(tree, root, release) && b in StagedRoots(tree, root, release) && Within(a, b)
    ensures a == b
  {
    AncestorPresent(tree, a, b);
    assert a != b ==> a in DirectoryRoots(tree, root, release) && b !in DirectoryRoots(tree, root, release);
  }

  /** Every obsolete entry lies under exactly one staged root. */
  lemma ObsoleteUnderOneRoot(tree: Tree, root: Path, release: Release, p: Path) returns (r: Path)
    requires Rooted(tree)
    requires p in ObsoleteFiles(tree, root, release) + ObsoleteDirectories(tree, root, release)
    ensures r in StagedRoots(tree, root, release) && Within(r, p)
    ensures forall s :: s in StagedRoots(tree, root, release) && Within(s, p) ==> s == r
  {
    var dirs := DirectoryRoots(tree, root, release);
    if p in ObsoleteDirectories(tree, root, release) {
      TopmostAbove(tree, root, release, p);
    }
    if Covered(dirs, p) {
      r :| r in dirs && Within(r, p);
    } else {
      r := p;
      assert Within(p, p);
    }
    forall s | s in StagedRoots(tree, root, release) && Within(s, p) ensures s == r {
      AncestorsNested(s, r, p);
      if |s| <= |r| {
        StagedNotNested(tree, root, release, s, r);
      } else {
        StagedNotNested(tree, root, release, r, s);
      }
    }
  }

  /** What lies above a needed path is a needed directory. */
  lemma AboveNeeded(release: Release, root: Path, r: Path, p: Path)
    requires Within(root, r) && Within(r, p) && r != p && Within(root, p)
    requires Relative(root, p) in release.assets || NeedsDirectory(release, Relative(root, p))
    ensures NeedsDirectory(release, Relative(root, r))
  {
    var rel, up := Relative(root, p), Relative(root, r);
    assert rel[..|up|] == up;
    assert p == root + rel && r == root + up;
    if up != [] {
      var a :| a in release.assets && Within(rel, a);
      WithinTransitive(up, rel, a);
      SameLengthIsSame(rel, a);
      SameLengthIsSame(up, rel);
    }
  }

  /** No entry the new release keeps lies under a staged root. */
  lemma KeptNotStaged(tree: Tree, root: Path, release: Release, p: Path)
    requires Rooted(tree) && p in tree && Within(root, p) && p != root
    requires if tree[p].File? then Relative(root, p) in release.assets else Relative(root, p) in DirectoriesOf(release)
    ensures !Covered(StagedRoots(tree, root, release), p)
  {
    assert Within(Relative(root, p), Relative(root, p));
    forall r | Within(root, r) && Within(r, p) ensures r !in StagedRoots(tree, root, release) {
      if r != p {
        AncestorPresent(tree, r, p);
        AboveNeeded(release, root, r, p);
      }
    }
  }

  /** What staging does not cover is the root, a kept directory or a kept file. */
  lemma UncoveredKept(tree: Tree, root: Path, release: Release, p: Path)
    requires Rooted(tree) && p in tree && Within(root, p) && p != root
    requires !Covered(StagedRoots(tree, root, release), p)
    ensures if tree[p].File? then Relative(root, p) in release.assets else Relative(root, p) in DirectoriesOf(release)
  {
    if p in ObsoleteFiles(tree, root, release) + ObsoleteDirectories(tree, root, release) {
      var r := ObsoleteUnderOneRoot(tree, root, release, p);
    }
  }
}
