/** The in-memory filesystem of companion/fake-omarchy.ts: a map from paths to nodes. */
module Filesystem {
  import opened Paths
  import opened Contracts

  datatype Node =
    | Dir(owner: string, mode: nat, inode: nat)
    | File(owner: string, mode: nat, inode: nat, bytes: Content)

  type Tree = map<Path, Node>

  datatype Kind = Directory | RegularFile

  /** What an inspection reports; the path it was taken at travels beside it. */
  datatype Identity = Missing | Present(kind: Kind, owner: string, mode: nat, inode: nat, size: nat)

  function Size(bytes: Content): nat {
    match bytes
    case Text(t) => |t|
    case ReceiptText(r) => |r.assets|
  }

  function IdentityOf(nodes: Tree, p: Path): Identity {
    if p !in nodes then Missing
    else match nodes[p]
      case Dir(owner, mode, inode) => Present(Directory, owner, mode, inode, 0)
      case File(owner, mode, inode, bytes) => Present(RegularFile, owner, mode, inode, Size(bytes))
  }

  predicate IsDir(nodes: Tree, p: Path) {
    p in nodes && nodes[p].Dir?
  }

  predicate IsFile(nodes: Tree, p: Path) {
    p in nodes && nodes[p].File?
  }

  /** Every non-root node lies under a directory parent. */
  ghost predicate Rooted(nodes: Tree) {
    && IsDir(nodes, [])
    && forall p {:trigger Parent(p)} :: p in nodes && p != [] ==> IsDir(nodes, Parent(p))
  }

  function Subtree(nodes: Tree, root: Path): Tree {
    map p | p in nodes && Within(root, p) :: nodes[p]
  }

  function Without(nodes: Tree, root: Path): Tree {
    map p | p in nodes && !Within(root, p) :: nodes[p]
  }

  function Children(nodes: Tree, dir: Path): set<Path> {
    set p | p in nodes && p != [] && Parent(p) == dir
  }

  ghost predicate Vacant(nodes: Tree, root: Path) {
    forall p :: p in nodes ==> !Within(root, p)
  }

  /** The tree after renaming `src` to `dst`, where nothing was. */
  function Moved(nodes: Tree, src: Path, dst: Path): (r: Tree)
    requires !Within(src, dst)
    ensures forall p :: p in r <==> (p in nodes && !Within(src, p)) || (Within(dst, p) && Rebase(p, dst, src) in nodes)
    ensures forall p :: p in r ==> r[p] == if Within(dst, p) && Rebase(p, dst, src) in nodes then nodes[Rebase(p, dst, src)] else nodes[p]
  {
    var there := set p | p in nodes && Within(src, p) :: Rebase(p, src, dst);
    assert forall p :: p in there <==> Within(dst, p) && Rebase(p, dst, src) in nodes by {
      forall p | p in nodes && Within(src, p) { RebaseInverse(p, src, dst); }
      forall p | Within(dst, p) { RebaseInverse(p, dst, src); }
    }
    map p | p in nodes.Keys + there && (p in there || !Within(src, p)) ::
      if p in there then nodes[Rebase(p, dst, src)] else nodes[p]
  }

  lemma {:induction false} AncestorPresent(nodes: Tree, a: Path, p: Path)
    requires Rooted(nodes) && p in nodes && Within(a, p)
    ensures a in nodes && (a != p ==> nodes[a].Dir?)
    decreases |p|
  {
    if a != p {
      WithinParent(a, p);
      AncestorPresent(nodes, a, Parent(p));
    }
  }

  /** Below a file or a missing path there is nothing. */
  lemma NothingBelow(nodes: Tree, a: Path)
    requires Rooted(nodes) && !IsDir(nodes, a)
    ensures forall p :: p in nodes && Within(a, p) ==> p == a && a in nodes
  {
    forall p | p in nodes && Within(a, p) ensures p == a && a in nodes {
      AncestorPresent(nodes, a, p);
    }
  }

  /** Renaming there and back again restores every node. */
  lemma MovedBack(nodes: Tree, src: Path, dst: Path)
    requires !Within(src, dst) && !Within(dst, src) && Vacant(nodes, dst)
    ensures Moved(Moved(nodes, src, dst), dst, src) == nodes
  {
    var there := Moved(nodes, src, dst);
    var back := Moved(there, dst, src);
    forall p ensures (p in back <==> p in nodes) && (p in nodes ==> back[p] == nodes[p]) {
      if Within(src, p) {
        RebaseInverse(p, src, dst);
      }
    }
  }

  lemma MovedRooted(nodes: Tree, src: Path, dst: Path)
    requires Rooted(nodes) && Vacant(nodes, dst) && !Within(src, dst) && src != [] && dst != []
    requires src in nodes && IsDir(nodes, Parent(dst))
    ensures Rooted(Moved(nodes, src, dst))
  {
    var r := Moved(nodes, src, dst);
    WithinParent(src, dst);
    assert IsDir(r, Parent(dst));
    forall p | p in r && p != [] ensures IsDir(r, Parent(p)) {
      if Within(dst, p) && Rebase(p, dst, src) in nodes {
        if p != dst {
          RebaseParent(p, dst, src);
          AncestorPresent(nodes, Parent(Rebase(p, dst, src)), Rebase(p, dst, src));
          assert IsDir(nodes, Rebase(Parent(p), dst, src));
        }
      } else {
        WithinParent(src, p);
        assert IsDir(nodes, Parent(p)) && !Within(src, Parent(p));
        assert !Within(dst, Parent(p));
      }
    }
  }

  ghost predicate DistinctInodes(nodes: Tree, nextInode: nat) {
    && (forall p :: p in nodes ==> nodes[p].inode < nextInode)
    && (forall p, q :: p in nodes && q in nodes && nodes[p].inode == nodes[q].inode ==> p == q)
  }

  lemma AddedNode(nodes: Tree, nextInode: nat, p: Path, node: Node)
    requires Rooted(nodes) && DistinctInodes(nodes, nextInode)
    requires p != [] && !IsDir(nodes, p) && IsDir(nodes, Parent(p))
    requires node.inode == if p in nodes then nodes[p].inode else nextInode
    ensures Rooted(nodes[p := node]) && DistinctInodes(nodes[p := node], nextInode + if p in nodes then 0 else 1)
  {
    NothingBelow(nodes, p);
    forall q | q in nodes && q != [] ensures Parent(q) != p {
      WithinParent(p, q);
      assert Within(p, p);
    }
  }

  lemma MovedInodes(nodes: Tree, nextInode: nat, src: Path, dst: Path)
    requires DistinctInodes(nodes, nextInode) && !Within(src, dst) && Vacant(nodes, dst)
    ensures DistinctInodes(Moved(nodes, src, dst), nextInode)
  {
    var r := Moved(nodes, src, dst);
    forall p, q | p in r && q in r && r[p].inode == r[q].inode ensures p == q {
      if Within(dst, p) && Rebase(p, dst, src) in nodes {
        RebaseInverse(p, dst, src);
      }
      if Within(dst, q) && Rebase(q, dst, src) in nodes {
        RebaseInverse(q, dst, src);
      }
    }
  }

  /** `after` is `before` with the prefixes of `path` shorter than `k` present as directories. */
  ghost predicate PrefixesMade(before: Tree, after: Tree, path: Path, k: nat, owner: string, mode: nat, firstInode: nat) {
    && (forall p :: p in after <==> p in before || (|p| < k && Within(p, path)))
    && (forall p :: p in before ==> after[p] == before[p])
    && (forall p :: p in after && |p| < k && Within(p, path) ==> after[p].Dir?)
    && (forall p :: p in after && p !in before ==>
          && after[p].owner == owner && after[p].inode >= firstInode
          && after[p].mode == if p == path then mode else DIRECTORY_MODE)
  }

  lemma PrefixMade(before: Tree, after: Tree, path: Path, k: nat, owner: string, mode: nat, firstInode: nat, inode: nat)
    requires 1 <= k <= |path| && firstInode <= inode
    requires PrefixesMade(before, after, path, k, owner, mode, firstInode)
    requires path[..k] in after ==> after[path[..k]].Dir?
    ensures path[..k] in after ==> PrefixesMade(before, after, path, k + 1, owner, mode, firstInode)
    ensures path[..k] !in after ==>
      PrefixesMade(before, after[path[..k] := Dir(owner, if k == |path| then mode else DIRECTORY_MODE, inode)],
        path, k + 1, owner, mode, firstInode)
  {
    var current := path[..k];
    OnePrefixMore(path, k);
    if current in after {
      hide Within;
      assert forall q :: |q| < k + 1 && Within(q, path) <==> (|q| < k && Within(q, path)) || q == current;
    } else {
      PrefixAdded(before, after, path, k, owner, mode, firstInode, Dir(owner, if k == |path| then mode else DIRECTORY_MODE, inode));
    }
  }

  lemma OnePrefixMore(path: Path, k: nat)
    requires 1 <= k <= |path|
    ensures forall q :: |q| < k + 1 && Within(q, path) <==> (|q| < k && Within(q, path)) || q == path[..k]
    ensures k == |path| <==> path[..k] == path
    ensures |path[..k]| == k
  {
    assert forall q :: |q| == k && Within(q, path) <==> q == path[..k];
  }

  lemma PrefixAdded(before: Tree, after: Tree, path: Path, k: nat, owner: string, mode: nat, firstInode: nat, node: Node)
    requires 1 <= k <= |path| && PrefixesMade(before, after, path, k, owner, mode, firstInode) && path[..k] !in after
    requires node.Dir? && node.owner == owner && node.inode >= firstInode && node.mode == if path[..k] == path then mode else DIRECTORY_MODE
    ensures PrefixesMade(before, after[path[..k] := node], path, k + 1, owner, mode, firstInode)
  {
    OnePrefixMore(path, k);
    hide Within;
  }

  /** If an ancestor-or-self of `path` was already there, so were all of that one's ancestors. */
  lemma OnlyMissing(before: Tree, after: Tree, path: Path, k: nat, owner: string, mode: nat, firstInode: nat)
    requires Rooted(before) && 1 <= k <= |path| && path[..k] in before
    requires PrefixesMade(before, after, path, k, owner, mode, firstInode)
    ensures after == before
  {
    forall p | |p| < k && Within(p, path) ensures p in before {
      AncestorsNested(p, path[..k], path);
      AncestorPresent(before, p, path[..k]);
    }
  }

  lemma PlacedIsMoved(before: Tree, after: Tree, src: Path, dst: Path)
    requires !Within(src, dst) && Vacant(before, dst)
    requires forall p :: !Within(dst, p) ==>
      (p in after <==> p in before && !Within(src, p)) && (p in after ==> after[p] == before[p])
    requires forall p :: Within(dst, p) ==> (p in after <==> Rebase(p, dst, src) in before)
    requires forall p :: Within(dst, p) && p in after ==> after[p] == before[Rebase(p, dst, src)]
    ensures after == Moved(before, src, dst)
  {
  }

  class FakeFilesystem {
    var nodes: Tree
    var nextInode: nat

    ghost predicate Valid()
      reads this
    {
      Rooted(nodes) && DistinctInodes(nodes, nextInode)
    }

    constructor (owner: string)
      ensures Valid() && nodes.Keys == {[]}
    {
      nodes := map[[] := Dir(owner, DIRECTORY_MODE, 100)];
      nextInode := 101;
    }

    /** One turn of the loop of EnsureDirectory: the prefix of length `k`. */
    method EnsurePrefix(path: Path, k: nat, owner: string, mode: nat, ghost before: Tree, ghost firstInode: nat) returns (ok: bool)
      requires Valid() && Rooted(before) && 1 <= k <= |path| && firstInode <= nextInode
      requires PrefixesMade(before, nodes, path, k, owner, mode, firstInode) && IsDir(nodes, path[..k - 1])
      modifies this
      ensures Valid() && nextInode >= old(nextInode)
      ensures ok ==> PrefixesMade(before, nodes, path, k + 1, owner, mode, firstInode) && IsDir(nodes, path[..k])
      ensures !ok ==> nodes == old(nodes) == before && nextInode == old(nextInode) && IsFile(before, path[..k])
      ensures nextInode != old(nextInode) ==> path[..k] in nodes && path[..k] !in before
    {
      var current := path[..k];
      PrefixParent(path, k);
      if IsFile(nodes, current) {
        OnlyMissing(before, nodes, path, k, owner, mode, firstInode);
        return false;
      }
      PrefixMade(before, nodes, path, k, owner, mode, firstInode, nextInode);
      if current !in nodes {
        // The parent is a directory here, so the guard on it in the source cannot fire.
        var created := Dir(owner, if k == |path| then mode else DIRECTORY_MODE, nextInode);
        AddedNode(nodes, nextInode, current, created);
        nodes := nodes[current := created];
        nextInode := nextInode + 1;
      }
      ok := true;
    }

    /**
     * Creates every missing prefix of `path`, or nothing at all: it fails exactly when
     * a prefix is a file, and then no directory has been left behind.
     */
    method EnsureDirectory(path: Path, owner: string, mode: nat) returns (ok: bool)
      requires Valid()
      modifies this
      ensures Valid()
      ensures ok <==> forall q :: q in old(nodes) && Within(q, path) ==> old(nodes)[q].Dir?
      ensures !ok ==> nodes == old(nodes) && nextInode == old(nextInode)
      ensures ok ==> PrefixesMade(old(nodes), nodes, path, |path| + 1, owner, mode, old(nextInode)) && IsDir(nodes, path)
      ensures nextInode >= old(nextInode)
    {
      var k := 1;
      ghost var first := nextInode;
      ghost var before := nodes;
      while k <= |path|
        invariant 1 <= k <= |path| + 1
        invariant Valid() && nextInode >= first && (nodes == before ==> nextInode == first)
        invariant IsDir(nodes, path[..k - 1])
        invariant PrefixesMade(before, nodes, path, k, owner, mode, first)
      {
        ok := EnsurePrefix(path, k, owner, mode, before, first);
        if !ok {
          assert Within(path[..k], path);
          return;
        }
        k := k + 1;
      }
      assert path[..|path|] == path;
      ok := true;
    }

    /** An existing file is replaced in place and keeps its inode. */
    method WriteBytesAtomic(path: Path, bytes: Content, owner: string, mode: nat) returns (ok: bool)
      requires Valid() && path != []
      modifies this
      ensures Valid()
      ensures ok <==> IsDir(old(nodes), Parent(path)) && !IsDir(old(nodes), path)
      ensures !ok ==> nodes == old(nodes) && nextInode == old(nextInode)
      ensures ok ==> nodes == old(nodes)[path := File(owner, mode,
        if path in old(nodes) then old(nodes)[path].inode else old(nextInode), bytes)]
      ensures ok ==> nextInode == old(nextInode) + if path in old(nodes) then 0 else 1
    {
      if !IsDir(nodes, Parent(path)) || IsDir(nodes, path) {
        return false;
      }
      var inode := if path in nodes then nodes[path].inode else nextInode;
      AddedNode(nodes, nextInode, path, File(owner, mode, inode, bytes));
      nextInode := if path in nodes then nextInode else nextInode + 1;
      nodes := nodes[path := File(owner, mode, inode, bytes)];
      ok := true;
    }

    /** The second loop of a rename: every moved entry appears below the destination. */
    method Place(moved: Tree, source: Path, destination: Path)
      requires forall p :: p in moved ==> Within(source, p)
      modifies this`nodes
      ensures forall p :: !Within(destination, p) ==>
        (p in nodes <==> p in old(nodes)) && (p in nodes ==> nodes[p] == old(nodes)[p])
      ensures forall p :: Within(destination, p) ==>
        (p in nodes <==> Rebase(p, destination, source) in moved || p in old(nodes))
      ensures forall p :: Within(destination, p) && Rebase(p, destination, source) in moved ==>
        p in nodes && nodes[p] == moved[Rebase(p, destination, source)]
    {
      var todo := moved.Keys;
      while todo != {}
        invariant todo <= moved.Keys
        invariant forall p :: !Within(destination, p) ==>
          (p in nodes <==> p in old(nodes)) && (p in nodes ==> nodes[p] == old(nodes)[p])
        invariant forall p :: Within(destination, p) ==>
          (p in nodes <==> Rebase(p, destination, source) in moved.Keys - todo || p in old(nodes))
        invariant forall p :: Within(destination, p) && Rebase(p, destination, source) in moved.Keys - todo ==>
          nodes[p] == moved[Rebase(p, destination, source)]
        decreases |todo|
      {
        var p :| p in todo;
        var q := Rebase(p, source, destination);
        RebaseInverse(p, source, destination);
        forall p' | Within(destination, p') && Rebase(p', destination, source) == p ensures p' == q {
          RebaseInverse(p', destination, source);
        }
        nodes := nodes[q := moved[p]];
        todo := todo - {p};
      }
    }

    method MoveEntries(source: Path, destination: Path)
      requires Valid() && source != [] && source in nodes && !Within(source, destination) && destination != []
      requires Vacant(nodes, destination) && IsDir(nodes, Parent(destination))
      modifies this`nodes
      ensures Valid() && nodes == Moved(old(nodes), source, destination)
    {
      ghost var before := nodes;
      hide Rooted, DistinctInodes, Moved, IsDir;
      var moved := Subtree(nodes, source);
      nodes := nodes - moved.Keys;
      Place(moved, source, destination);
      PlacedIsMoved(before, nodes, source, destination);
      MovedRooted(before, source, destination);
      MovedInodes(before, nextInode, source, destination);
    }

    method RenameExact(source: Path, identity: Identity, destination: Path) returns (ok: bool)
      requires Valid() && source != [] && destination != []
      modifies this
      ensures Valid()
      ensures ok <==>
        && source in old(nodes) && IdentityOf(old(nodes), source) == identity
        && !Within(source, destination) && Vacant(old(nodes), destination) && IsDir(old(nodes), Parent(destination))
      ensures !ok ==> nodes == old(nodes)
      ensures ok ==> nodes == Moved(old(nodes), source, destination)
      ensures nextInode == old(nextInode)
    {
      if source !in nodes || IdentityOf(nodes, source) != identity || Within(source, destination) {
        return false;
      }
      if exists p :: p in nodes && Within(destination, p) {
        return false;
      }
      if !IsDir(nodes, Parent(destination)) {
        return false;
      }
      MoveEntries(source, destination);
      ok := true;
    }

    method RemoveFileExact(path: Path, identity: Identity) returns (ok: bool)
      requires Valid()
      modifies this
      ensures Valid()
      ensures ok <==> IsFile(old(nodes), path) && IdentityOf(old(nodes), path) == identity
      ensures nodes == if ok then old(nodes) - {path} else old(nodes)
      ensures nextInode == old(nextInode)
    {
      if IdentityOf(nodes, path) != identity || !IsFile(nodes, path) {
        return false;
      }
      NothingBelow(nodes, path);
      ghost var before := nodes;
      nodes := nodes - {path};
      forall p | p in nodes && p != [] ensures IsDir(nodes, Parent(p)) {
        WithinParent(path, p);
        assert Within(path, path);
        assert Parent(p) == path ==> p in before && Within(path, p);
      }
      ok := true;
    }

    method RemoveDirectoryExact(path: Path, identity: Identity) returns (ok: bool)
      requires Valid()
      modifies this
      ensures Valid()
      ensures ok <==> path != [] && IsDir(old(nodes), path) && IdentityOf(old(nodes), path) == identity && Children(old(nodes), path) == {}
      ensures nodes == if ok then old(nodes) - {path} else old(nodes)
      ensures nextInode == old(nextInode)
    {
      if IdentityOf(nodes, path) != identity || !IsDir(nodes, path) || Children(nodes, path) != {} || path == [] {
        return false;
      }
      ghost var before := nodes;
      nodes := nodes - {path};
      forall p | p in nodes && p != [] ensures IsDir(nodes, Parent(p)) {
        assert Parent(p) == path ==> p in Children(before, path);
      }
      ok := true;
    }
  }
}
