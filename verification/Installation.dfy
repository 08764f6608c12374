/** The installer of companion/installation.ts over the in-memory environment. */
module Installation {
  import opened Paths
  import opened Contracts
  import opened Sequences
  import opened Filesystem
  import opened ShellConfiguration
  import opened Staging
  import opened Recovery
  import opened Deployment

  /** Staging in progress: the renamed entries in order, and the staged tree once staging is complete. */
  datatype ActiveStage = ActiveStage(path: Path, entries: seq<Path>, snapshot: Option<Tree>)

  datatype Outcome = Done | RolledBack | Incomplete | Refused

  class CompanionInstallation {
    const fs: FakeFilesystem
    const config: FakeConfiguration
    const root: Path
    const receipt: Path
    const owner: string
    var stage: Option<ActiveStage>

    constructor (fs: FakeFilesystem, config: FakeConfiguration, receipt: Path, owner: string)
      ensures this.fs == fs && this.config == config && this.receipt == receipt && this.owner == owner
      ensures root == config.pluginRoot && stage == None
    {
      this.fs := fs;
      this.config := config;
      this.root := config.pluginRoot;
      this.receipt := receipt;
      this.owner := owner;
      this.stage := None;
    }

    function At(stagePath: Path): Site {
      Site(root, stagePath, receipt)
    }

    function CaptureState(): Snapshot
      reads fs, config
    {
      StateOf(root, receipt, fs.nodes, config.bytes)
    }

    /** Removes files, in any order, each under the identity it was captured with. */
    method RemoveFiles(files: set<Path>, tree: Tree)
      requires fs.Valid()
      requires forall p :: p in files ==> IsFile(fs.nodes, p) && p in tree && tree[p] == fs.nodes[p]
      modifies fs
      ensures fs.Valid() && fs.nodes == old(fs.nodes) - files && fs.nextInode == old(fs.nextInode)
    {
      hide FakeFilesystem.Valid;
      var done: set<Path> := {};
      ghost var before := fs.nodes;
      while done != files
        invariant fs.Valid() && done <= files && fs.nextInode == old(fs.nextInode)
        invariant fs.nodes == before - done
        decreases files - done
      {
        SomeLeft(done, files);
        var p :| p in files - done;
        var removed := fs.RemoveFileExact(p, IdentityOf(tree, p));
        assert removed;
        DropTwice(before, done, {p});
        done := done + {p};
      }
    }

    /** Removes directories that hold nothing but each other, longest path first, so children go before parents. */
    method RemoveDirectories(dirs: set<Path>, tree: Tree)
      requires fs.Valid()
      requires forall p :: p in dirs ==> p != [] && IsDir(fs.nodes, p) && p in tree && tree[p] == fs.nodes[p]
      requires forall c :: c in fs.nodes && c != [] && Parent(c) in dirs ==> c in dirs
      modifies fs
      ensures fs.Valid() && fs.nodes == old(fs.nodes) - dirs && fs.nextInode == old(fs.nextInode)
    {
      hide FakeFilesystem.Valid;
      var done: set<Path> := {};
      ghost var before := fs.nodes;
      while done != dirs
        invariant fs.Valid() && done <= dirs && fs.nextInode == old(fs.nextInode)
        invariant fs.nodes == before - done
        decreases dirs - done
      {
        var p := PickLongest(dirs - done);
        ChildrenGone(before, dirs, done, p);
        var removed := fs.RemoveDirectoryExact(p, IdentityOf(tree, p));
        assert removed;
        DropTwice(before, done, {p});
        done := done + {p};
      }
    }

    /** Removes a captured tree: its files, then its directories from the deepest up, then its top. */
    method RemoveTree(tree: Tree, top: Path)
      requires fs.Valid() && top != [] && top in fs.nodes && tree == Subtree(fs.nodes, top)
      modifies fs
      ensures fs.Valid() && fs.nodes == Without(old(fs.nodes), top) && fs.nextInode == old(fs.nextInode)
    {
      ghost var before := fs.nodes;
      if tree[top].File? {
        NothingBelow(before, top);
        RemoveFiles({top}, tree);
        return;
      }
      TreeParts(before, top);
      hide *;
      RemoveFiles(FilesOf(tree), tree);
      RemoveDirectories(DirectoriesBelow(tree, top), tree);
      RemoveDirectories({top}, tree);
    }

    /** Moves every staged entry back over whatever replaced it, then drops the stage. Straight after staging this is its inverse. */
    method RestoreStagedEntries(ghost all: Tree, prior: Tree, expected: Tree) returns (restored: set<Path>)
      requires stage.Some? && fs.Valid() && Rooted(all)
      requires Separate(At(stage.value.path)) && IsDir(fs.nodes, stage.value.path)
      requires Progress(At(stage.value.path), all, AsSet(stage.value.entries), fs.nodes)
      requires Distinct(stage.value.entries)
      requires prior == Subtree(all, root) && expected == Subtree(fs.nodes, root)
      modifies fs, this`stage
      ensures fs.Valid() && stage == None && restored == AsSet(old(stage).value.entries)
      ensures Progress(At(old(stage).value.path), all, {}, fs.nodes) && Vacant(fs.nodes, old(stage).value.path)
      ensures fs.nextInode == old(fs.nextInode)
      ensures PluginExact(At(old(stage).value.path), all, AsSet(old(stage).value.entries), old(fs.nodes)) && Vacant(all, old(stage).value.path)
        ==> fs.nodes == all
    {
      var site := At(stage.value.path);
      var entries := stage.value.entries;
      restored := {};
      ghost var start := fs.nodes;
      ghost var exact := PluginExact(site, all, AsSet(entries), fs.nodes);
      var i := 0;
      assert entries[0..] == entries;
      while i < |entries|
        invariant 0 <= i <= |entries| && restored == AsSet(entries[..i])
        invariant fs.Valid() && fs.nextInode == old(fs.nextInode) && IsDir(fs.nodes, site.stage)
        invariant Progress(site, all, AsSet(entries[i..]), fs.nodes) && Untouched(start, fs.nodes, AsSet(entries[i..]))
        invariant exact ==> PluginExact(site, all, AsSet(entries[i..]), fs.nodes)
      {
        restored := UndoOne(site, all, prior, expected, start, entries, i, restored);
        i := i + 1;
      }
      assert entries[i..] == [] && entries[..i] == entries;
      ghost var beforeDrop := fs.nodes;
      RemoveTree(Subtree(fs.nodes, site.stage), site.stage);
      ProgressWithoutStage(site, all, beforeDrop);
      stage := None;
      if exact && Vacant(all, site.stage) {
        ExactWithoutStage(site, all, beforeDrop);
        BothVacant(site, all, fs.nodes);
        ExactIsPrior(site, all, fs.nodes);
      }
    }

    /** One turn of that loop. */
    method UndoOne(site: Site, ghost all: Tree, prior: Tree, expected: Tree, ghost start: Tree, entries: seq<Path>, i: nat, done: set<Path>)
      returns (restored: set<Path>)
      requires i < |entries| && Distinct(entries)
      requires fs.Valid() && Rooted(all) && Separate(site) && site == At(site.stage) && IsDir(fs.nodes, site.stage)
      requires Progress(site, all, AsSet(entries[i..]), fs.nodes) && Untouched(start, fs.nodes, AsSet(entries[i..]))
      requires prior == Subtree(all, root) && expected == Subtree(start, root) && done == AsSet(entries[..i])
      modifies fs
      ensures fs.Valid() && fs.nextInode == old(fs.nextInode) && IsDir(fs.nodes, site.stage)
      ensures Progress(site, all, AsSet(entries[i + 1..]), fs.nodes) && Untouched(start, fs.nodes, AsSet(entries[i + 1..]))
      ensures restored == AsSet(entries[..i + 1])
      ensures PluginExact(site, all, AsSet(entries[i..]), old(fs.nodes)) ==> PluginExact(site, all, AsSet(entries[i + 1..]), fs.nodes)
    {
      assert Rooted(fs.nodes) && site.root == root;
      hide *;
      var source := entries[i];
      ghost var staged := AsSet(entries[i..]);
      SliceSets(entries, i);
      RestoredOne(site, all, staged, source, fs.nodes);
      var destination := Destination(site, source);
      if PluginExact(site, all, staged, fs.nodes) {
        RestoredExact(site, all, staged, source, fs.nodes);
      }
      StagedSubtree(site, all, staged, source, fs.nodes);
      SourceSubtree(site, all, start, staged, source, fs.nodes);
      RestoreStep(site, all, start, staged, source, fs.nodes);
      // The staged subtree is the prior one, and what occupies the source path is what recovery observed.
      assert Subtree(fs.nodes, destination) == Moved(Subtree(prior, source), source, destination);
      if source in fs.nodes {
        var replacement := Subtree(fs.nodes, source);
        assert replacement == Subtree(expected, source);
        RemoveTree(replacement, source);
      }
      var renamed := fs.RenameExact(destination, IdentityOf(fs.nodes, destination), source);
      assert renamed;
      restored := done + {source};
    }

    /** Puts every prior file back under its recorded owner, mode and bytes; it keeps its inode. */
    method RewriteFiles(prior: Tree)
      requires fs.Valid() && [] !in prior
      requires forall p :: IsFile(prior, p) ==> IsFile(fs.nodes, p) && fs.nodes[p].inode == prior[p].inode
      modifies fs
      ensures fs.Valid() && fs.nodes == old(fs.nodes) + FileNodes(prior) && fs.nextInode == old(fs.nextInode)
    {
      hide FakeFilesystem.Valid;
      var todo := FilesOf(prior);
      ghost var before := fs.nodes;
      while todo != {}
        invariant fs.Valid() && todo <= FilesOf(prior) && fs.nextInode == old(fs.nextInode)
        invariant fs.nodes == before + (FileNodes(prior) - todo)
        decreases |todo|
      {
        var p :| p in todo;
        RewrittenOne(before, FileNodes(prior), todo, p);
        RewriteFile(p, prior[p]);
        todo := todo - {p};
      }
    }

    method RewriteFile(p: Path, node: Node)
      requires fs.Valid() && p != [] && node.File? && IsFile(fs.nodes, p) && fs.nodes[p].inode == node.inode
      modifies fs
      ensures fs.Valid() && fs.nodes == old(fs.nodes)[p := node] && fs.nextInode == old(fs.nextInode)
    {
      FileParent(fs.nodes, p);
      var current := fs.nodes[p];
      if current.bytes != node.bytes || current.owner != node.owner || current.mode != node.mode {
        var written := fs.WriteBytesAtomic(p, node.bytes, node.owner, node.mode);
        assert written;
      }
    }

    method RestoreShell(prior: ShellBytes, expected: ShellBytes) returns (ok: bool)
      requires config.pluginRoot == root && expected == config.bytes
      modifies config
      ensures ok <==> ShellAfterRestore(root, old(config.bytes), old(config.restore), prior) == Some(prior)
      ensures ok ==> config.bytes == prior
      ensures Enabled(old(config.bytes)) && Enabled(prior) ==> config.restore == old(config.restore)
    {
      if expected != prior {
        if Enabled(prior) {
          if !MayEnable(config.bytes, root) { return false; }
          config.Enable();
        } else {
          if !OwnedExactly(config.bytes, root) { return false; }
          config.Disable();
        }
        if config.bytes != prior { return false; }
      }
      ok := true;
    }

    /** Removes what is new, rewrites what was there; the receipt comes last. */
    method RestoreTree(ghost all: Tree, site: Site, prior: Snapshot)
      requires fs.Valid() && Rooted(all) && Separate(site) && site == At(site.stage)
      requires Progress(site, all, {}, fs.nodes) && StageSame(site, all, fs.nodes)
      requires prior.tree == Subtree(all, root) && prior.receipt == if receipt in all then Some(all[receipt]) else None
      modifies fs
      ensures fs.Valid() && fs.nodes == all && fs.nextInode == old(fs.nextInode)
    {
      ghost var now := fs.nodes;
      assert Rooted(now) && site.root == root && site.receipt == receipt;
      RestoreParts(site, all, now);
      AllRestored(site, all, now);
      assert [] !in prior.tree;
      var tree := Subtree(fs.nodes, root);
      RemoveFiles(NewFiles(prior.tree, tree), tree);
      RemoveDirectories(NewDirectories(prior.tree, tree), tree);
      // No prior directory is missing, so the source's loop that recreates them finds nothing to do.
      assert forall p :: IsDir(prior.tree, p) ==> p in fs.nodes;
      RewriteFiles(prior.tree);
      RestoreReceipt(all, prior);
    }

    method RestoreReceipt(ghost all: Tree, prior: Snapshot)
      requires fs.Valid() && Rooted(all) && receipt != []
      requires prior.receipt == if receipt in all then Some(all[receipt]) else None
      requires forall p :: p != receipt ==> (p in fs.nodes <==> p in all) && (p in fs.nodes ==> fs.nodes[p] == all[p])
      requires receipt in fs.nodes ==> fs.nodes[receipt].File?
      requires receipt in all ==>
        && receipt in fs.nodes && all[receipt].File? && all[receipt].inode == fs.nodes[receipt].inode
        && all[receipt].owner == fs.nodes[receipt].owner && all[receipt].mode == fs.nodes[receipt].mode
      modifies fs
      ensures fs.Valid() && fs.nodes == all && fs.nextInode == old(fs.nextInode)
    {
      if prior.receipt == None {
        if receipt in fs.nodes {
          var removed := fs.RemoveFileExact(receipt, IdentityOf(fs.nodes, receipt));
          assert removed;
        }
      } else if fs.nodes[receipt].bytes != prior.receipt.value.bytes {
        FileParent(fs.nodes, receipt);
        var written := fs.WriteBytesAtomic(receipt, prior.receipt.value.bytes, prior.receipt.value.owner, prior.receipt.value.mode);
        assert written;
      }
      assert fs.nodes == all;
    }

    ghost function StagedSet(): set<Path>
      reads this
    {
      if stage == None then {} else AsSet(stage.value.entries)
    }

    /** Between the end of staging and the start of its cleanup: everything recovery relies on. */
    ghost predicate InProgress(site: Site, all: Tree)
      reads this, fs
    {
      && fs.Valid() && Rooted(all) && Separate(site) && site == At(site.stage)
      && Parent(site.stage) == Parent(site.root) && IsDir(all, Parent(site.root))
      && Progress(site, all, StagedSet(), fs.nodes)
      && (stage == None ==> StageSame(site, all, fs.nodes))
      && (stage != None ==>
        && Vacant(all, site.stage)
        && stage.value.path == site.stage && IsDir(fs.nodes, site.stage)
        && Distinct(stage.value.entries)
        && StageTidy(site, StagedSet(), fs.nodes, owner)
        && stage.value.snapshot == Some(Subtree(fs.nodes, site.stage)))
    }

    /** Creates the plugin root and the directories of the release; shallower ones need not come first. */
    method EnsureReleaseDirectories(site: Site, ghost all: Tree, release: Release, faulty: bool) returns (ok: bool)
      requires InProgress(site, all)
      modifies fs
      ensures InProgress(site, all)
      ensures DirectoriesAdded(root, release, old(fs.nodes), fs.nodes, owner)
      ensures ok ==> forall d :: NeedsDirectory(release, d) ==> IsDir(fs.nodes, root + d)
      ensures !faulty && (forall d :: NeedsDirectory(release, d) && root + d in old(fs.nodes) ==> SafeDirectory(old(fs.nodes)[root + d], owner)) ==> ok
    {
      hide InProgress, NeedsDirectory, SafeDirectory;
      var directories := ExpectedDirectories(release);
      ghost var before := fs.nodes;
      ghost var clear := forall d :: NeedsDirectory(release, d) && root + d in before ==> SafeDirectory(before[root + d], owner);
      var done: set<Path> := {};
      while done != directories
        invariant done <= directories && InProgress(site, all)
        invariant DirectoriesAdded(root, release, before, fs.nodes, owner)
        invariant forall d :: d in done ==> IsDir(fs.nodes, root + d)
        decreases directories - done
      {
        SomeLeft(done, directories);
        var d :| d in directories - done;
        var fails: bool := *;
        if faulty && fails {
          return false;
        }
        ok := EnsureReleaseDirectory(site, all, release, d, before, clear);
        if !ok {
          return;
        }
        done := done + {d};
      }
      ok := true;
    }

    method EnsureReleaseDirectory(site: Site, ghost all: Tree, release: Release, d: Path, ghost before: Tree, ghost clear: bool) returns (ok: bool)
      requires InProgress(site, all) && NeedsDirectory(release, d) && DirectoriesAdded(root, release, before, fs.nodes, owner)
      requires clear ==> forall d :: NeedsDirectory(release, d) && root + d in before ==> SafeDirectory(before[root + d], owner)
      modifies fs
      ensures InProgress(site, all)
      ensures DirectoriesAdded(root, release, before, fs.nodes, owner)
      ensures forall p :: p in old(fs.nodes) ==> p in fs.nodes && fs.nodes[p] == old(fs.nodes)[p]
      ensures ok ==> IsDir(fs.nodes, root + d)
      ensures clear ==> ok
    {
      ghost var now, staged := fs.nodes, StagedSet();
      RootParent(site, all, staged, now);
      assert Rooted(now) && site.root == root;
      if clear {
        NothingInTheWay(site, release, now, d);
      }
      hide FakeFilesystem.Valid, Progress, StageTidy, StageSame, SafeDirectory, Separate, Subtree, NeedsDirectory, DirectoriesAdded, Rooted;
      ok := EnsureSafeDirectory(root + d);
      if ok {
        ReleaseDirectoryMade(site, all, staged, release, before, now, fs.nodes, d, owner);
      }
    }

    /** A missing directory is created; an existing one must be a safe directory of the owner. */
    method EnsureSafeDirectory(target: Path) returns (ok: bool)
      requires fs.Valid()
      modifies fs
      ensures fs.Valid() && fs.nextInode >= old(fs.nextInode)
      ensures ok <==> if target in old(fs.nodes) then SafeDirectory(old(fs.nodes)[target], owner)
        else forall q :: q in old(fs.nodes) && Within(q, target) ==> old(fs.nodes)[q].Dir?
      ensures !ok ==> fs.nodes == old(fs.nodes)
      ensures ok ==> forall p :: p in fs.nodes <==> p in old(fs.nodes) || Within(p, target)
      ensures forall p :: p in old(fs.nodes) ==> p in fs.nodes && fs.nodes[p] == old(fs.nodes)[p]
      ensures forall p :: p in fs.nodes && p !in old(fs.nodes) ==> SafeDirectory(fs.nodes[p], owner)
    {
      if target in fs.nodes {
        PrefixesPresent(fs.nodes, target);
        return SafeDirectory(fs.nodes[target], owner);
      }
      ok := fs.EnsureDirectory(target, owner, DIRECTORY_MODE);
    }

    /** Writes every asset, in any order, unless its target is not what the prior state leads to expect. */
    method WriteAssets(site: Site, ghost all: Tree, prior: Tree, release: Release, faulty: bool) returns (ok: bool)
      requires InProgress(site, all) && prior == Subtree(all, root) && [] !in release.assets
      requires forall d :: NeedsDirectory(release, d) ==> IsDir(fs.nodes, root + d)
      modifies fs
      ensures InProgress(site, all)
      ensures ok ==> AssetsWritten(root, release, release.assets.Keys, old(fs.nodes), fs.nodes, owner)
      ensures forall d :: NeedsDirectory(release, d) ==> IsDir(fs.nodes, root + d)
      ensures !faulty && TargetsReady(root, release, all, old(fs.nodes)) && Consistent(release) ==> ok
    {
      ghost var before := fs.nodes;
      var done: set<Path> := {};
      hide *;
      while done != release.assets.Keys
        invariant done <= release.assets.Keys && InProgress(site, all)
        invariant AssetsWritten(root, release, done, before, fs.nodes, owner)
        invariant forall d :: NeedsDirectory(release, d) ==> IsDir(fs.nodes, root + d)
        decreases release.assets.Keys - done
      {
        SomeLeft(done, release.assets.Keys);
        var a :| a in release.assets.Keys - done;
        var fails: bool := *;
        if faulty && fails {
          return false;
        }
        ok := WriteAsset(site, all, prior, release, a, done, before);
        if !ok {
          return;
        }
        done := done + {a};
      }
      ok := true;
    }

    method WriteAsset(site: Site, ghost all: Tree, prior: Tree, release: Release, a: Path, ghost done: set<Path>, ghost before: Tree)
      returns (ok: bool)
      requires InProgress(site, all) && prior == Subtree(all, root) && a in release.assets && a != [] && a !in done
      requires forall d :: NeedsDirectory(release, d) ==> IsDir(fs.nodes, root + d)
      requires AssetsWritten(root, release, done, before, fs.nodes, owner)
      modifies fs
      ensures InProgress(site, all)
      ensures forall d :: NeedsDirectory(release, d) ==> IsDir(fs.nodes, root + d)
      ensures ok ==> AssetsWritten(root, release, done + {a}, before, fs.nodes, owner)
      ensures TargetsReady(root, release, all, before) && Consistent(release) ==> ok
    {
      var target := root + a;
      ghost var now := fs.nodes;
      assert Rooted(now);
      assert Within(root, target);
      AssetParent(root, release, a);
      if TargetsReady(root, release, all, before) {
        TargetStillReady(root, release, done, a, all, before, now, owner);
      }
      hide Progress, AssetsWritten, StageTidy, StageSame, TargetsReady, FakeFilesystem.Valid, NeedsDirectory, Within;
      var current := IdentityOf(fs.nodes, target);
      if IsFile(prior, target) {
        if current != IdentityOf(prior, target) { return false; }
      } else if current != Missing {
        return false;
      }
      ok := fs.WriteBytesAtomic(target, Text(release.assets[a]), owner, ASSET_MODE);
      assert ok;
      AssetProgress(site, all, StagedSet(), release, done, a, before, now, fs.nodes[target], owner);
    }

    /** The filesystem part of an installation or a replacement: stage, make directories, write assets. */
    method Populate(site: Site, ghost all: Tree, prior: Tree, replacing: bool, release: Release, faulty: bool) returns (ok: bool)
      requires InProgress(site, all) && stage == None && fs.nodes == all && prior == Subtree(all, root)
      requires [] !in release.assets && SafeTree(root, all, owner) && replacing == (root in all)
      requires root in all ==> all[root].Dir?
      modifies fs, this`stage
      ensures InProgress(site, all)
      ensures ok ==> ReleaseTree(root, release, owner, fs.nodes) && Consistent(release)
      ensures ok ==> (receipt in fs.nodes <==> receipt in all) && (receipt in all ==> fs.nodes[receipt] == all[receipt])
      ensures !faulty && Consistent(release) && (replacing ==> site.stage !in all) ==> ok
      ensures ok && replacing ==> site.stage !in all
    {
      assert site.root == root && site.receipt == receipt;
      if replacing {
        ok := StageObsolete(site, all, prior, release);
        if !ok { return; }
      } else {
        NothingToStage(site, release, all);
        ok := true;
      }
      ghost var base, staged := fs.nodes, StagedSet();
      assert PluginExact(site, all, staged, base) && staged == StagedRoots(all, root, release) && ProperStaged(site, all, staged);
      if Consistent(release) {
        DirectoriesClear(site, release, all, base, owner);
      }
      hide *;
      ok := EnsureReleaseDirectories(site, all, release, faulty);
      if !ok { return; }
      ghost var mid := fs.nodes;
      if Consistent(release) {
        ReadyAfterStaging(site, release, all, base, mid, owner);
      }
      ok := WriteAssets(site, all, prior, release, faulty);
      if !ok { return; }
      Deployed(site, release, all, base, mid, fs.nodes, owner);
      ReceiptUntouched(site, release, all, staged, base, mid, fs.nodes, owner);
    }

    /** The shell and receipt part of an installation or a replacement, up to its postcondition; `enabled` says whether enable was run. */
    method Register(site: Site, ghost all: Tree, prior: Snapshot, previous: Option<Receipt>, release: Release, faulty: bool)
      returns (ok: bool, enabled: bool)
      requires InProgress(site, all) && ReleaseTree(root, release, owner, fs.nodes) && [] !in release.assets
      requires IsDir(all, Parent(receipt)) && config.pluginRoot == root && config.bytes == prior.shell
      requires prior.receipt == if receipt in all then Some(all[receipt]) else None
      requires (receipt in fs.nodes <==> receipt in all) && (receipt in all ==> fs.nodes[receipt] == all[receipt])
      requires receipt in all ==> OwnedReceipt(all[receipt], owner)
      modifies fs, config
      ensures InProgress(site, all)
      ensures ShellAt(old(config.bytes), old(config.restore), enabled) && (ok ==> enabled)
      ensures ok ==> ReleaseTree(root, release, owner, fs.nodes)
      ensures ok ==> receipt in fs.nodes && ReceiptFor(root, owner, fs.nodes, fs.nodes[receipt], release, previous, prior.shell, config.bytes)
      ensures ok ==> ValidReceipt(root, owner, CaptureState()).Some?
      ensures !faulty && MayEnable(old(config.bytes), root) ==> ok
    {
      assert site.root == root && site.receipt == receipt;
      AssetsPresent(root, release, owner, fs.nodes);
      assert IdentityOf(fs.nodes, receipt) == Recorded(prior.receipt);
      hide ReleaseTree, InProgress, ReceiptFor, ValidReceipt, BuildReceipt, MayEnable, AfterEnable, OwnedExactly, IdentityOf, Recorded;
      var fails: bool := *;
      if (faulty && fails) || !MayEnable(config.bytes, root) {
        return false, false;
      }
      EnableOwns(config.bytes, root);
      config.Enable();
      enabled := true;
      assert OwnedExactly(config.bytes, root);
      fails := *;
      if faulty && fails {
        return false, true;
      }
      var tree := Subtree(fs.nodes, root);
      var built := BuildReceipt(root, release, previous, tree, prior.shell, config.bytes);
      ghost var now := fs.nodes;
      ok := WriteReceipt(site, all, prior, built);
      if ok {
        BuiltReceipt(site, release, previous, owner, now, fs.nodes, prior.shell, config.bytes);
        fails := *;
        if faulty && fails {
          return false, true;
        }
      }
    }

    /** The shell is as it was, or as enabling the plugin left it; enabling from absence records the bytes to restore. */
    ghost predicate ShellAt(bytes: ShellBytes, restore: Option<ShellBytes>, enabled: bool)
      reads config
    {
      && config.bytes == (if enabled then AfterEnable(bytes, root) else bytes)
      && config.restore == (if enabled && !Enabled(bytes) then Some(bytes) else restore)
    }

    /** The identity under which a receipt was captured. */
    function Recorded(node: Option<Node>): Identity {
      if node == None then Missing else IdentityOf(map[receipt := node.value], receipt)
    }

    /** Writes the receipt, unless the one there is not the one the operation started from. */
    method WriteReceipt(site: Site, ghost all: Tree, prior: Snapshot, built: Receipt) returns (ok: bool)
      requires InProgress(site, all) && IsDir(all, Parent(receipt))
      requires receipt in fs.nodes ==> OwnedReceipt(fs.nodes[receipt], owner)
      modifies fs
      ensures InProgress(site, all)
      ensures ok <==> IdentityOf(old(fs.nodes), receipt) == Recorded(prior.receipt)
      ensures !ok ==> fs.nodes == old(fs.nodes)
      ensures ok ==> receipt in fs.nodes && fs.nodes == old(fs.nodes)[receipt := fs.nodes[receipt]]
      ensures ok ==> OwnedReceipt(fs.nodes[receipt], owner) && fs.nodes[receipt].bytes == ReceiptText(built)
    {
      ghost var now := fs.nodes;
      assert site.receipt == receipt;
      if IdentityOf(fs.nodes, receipt) != Recorded(prior.receipt) {
        return false;
      }
      ReceiptDirectory(site, all, StagedSet(), now);
      hide Progress, StageTidy, StageSame, FakeFilesystem.Valid;
      ok := fs.WriteBytesAtomic(receipt, ReceiptText(built), owner, RECEIPT_MODE);
      assert ok;
      ReceiptProgress(site, all, StagedSet(), now, fs.nodes[receipt], owner);
    }

    /** Drops the staged entries, once nothing can fail any more. */
    method FinalizeStage(site: Site, ghost all: Tree)
      requires InProgress(site, all)
      modifies fs, this`stage
      ensures fs.Valid() && stage == None
      ensures fs.nodes == if old(stage) == None then old(fs.nodes) else Without(old(fs.nodes), site.stage)
    {
      if stage != None {
        var current := Subtree(fs.nodes, stage.value.path);
        assert stage.value.snapshot == Some(current);
        assert Within(site.stage, site.stage);
        RemoveTree(current, stage.value.path);
        stage := None;
      }
    }

    /**
     * Undoes an operation that failed after staging and before cleanup. It completes exactly
     * when the shell can be restored, and then the state is exactly the prior one.
     */
    method Recover(site: Site, ghost all: Tree, prior: Snapshot) returns (complete: bool)
      requires InProgress(site, all) && config.pluginRoot == root
      requires prior == StateOf(root, receipt, all, prior.shell)
      modifies fs, config, this`stage
      ensures fs.Valid()
      ensures complete <==> ShellAfterRestore(root, old(config.bytes), old(config.restore), prior.shell) == Some(prior.shell)
      ensures complete ==> fs.nodes == all && config.bytes == prior.shell
      ensures stage == None && (old(stage) == None && !complete ==> fs.nodes == old(fs.nodes))
      ensures Enabled(old(config.bytes)) && Enabled(prior.shell) ==> config.restore == old(config.restore)
    {
      var expected := CaptureState();
      assert expected.shell == config.bytes && expected.tree == Subtree(fs.nodes, root) && prior.tree == Subtree(all, root);
      assert prior.receipt == if receipt in all then Some(all[receipt]) else None;
      hide *;
      Unstage(site, all, prior.tree, expected.tree);
      complete := RestoreShell(prior.shell, expected.shell);
      if complete {
        RestoreTree(all, site, prior);
      }
    }

    method Unstage(site: Site, ghost all: Tree, prior: Tree, expected: Tree)
      requires InProgress(site, all) && prior == Subtree(all, root) && expected == Subtree(fs.nodes, root)
      modifies fs, this`stage
      ensures fs.Valid() && stage == None && Rooted(all) && Separate(site) && site == At(site.stage)
      ensures Progress(site, all, {}, fs.nodes) && StageSame(site, all, fs.nodes)
      ensures old(stage) == None ==> fs.nodes == old(fs.nodes)
    {
      hide FakeFilesystem.Valid, Progress, StageTidy;
      if stage != None {
        assert stage.value.snapshot == Some(Subtree(fs.nodes, site.stage));
        var restored := RestoreStagedEntries(all, prior, expected);
        BothVacant(site, all, fs.nodes);
      }
    }

    /** The paths an operation works with, and what surrounds them. */
    ghost predicate Environment(stagePath: Path)
      reads this, fs, config
    {
      && fs.Valid() && config.pluginRoot == root && Separate(At(stagePath))
      && Parent(stagePath) == Parent(root) && IsDir(fs.nodes, Parent(root)) && IsDir(fs.nodes, Parent(receipt))
    }

    /**
     * Runs one operation; `enabled` says whether it has run the shell's enable. A refusal or a completed recovery leaves
     * everything exactly as it was; a completed operation leaves exactly the release and its receipt; a failed one ends
     * incomplete exactly when it replaces, enable has run, and the shell bytes were not in the layout the shell itself writes.
     */
    method Execute(operation: Operation, stagePath: Path, release: Release, faulty: bool) returns (outcome: Outcome, enabled: bool)
      requires Environment(stagePath) && [] !in release.assets
      modifies fs, config, this`stage
      ensures fs.Valid()
      ensures outcome == Refused <==> old(stage) != None || !Admits(operation, root, owner, old(CaptureState()), release)
      ensures outcome == Refused ==> config.restore == old(config.restore)
      ensures outcome == Refused || outcome == RolledBack ==>
        && fs.nodes == old(fs.nodes) && config.bytes == old(config.bytes) && stage == old(stage)
        && (config.restore == old(config.restore) || operation == Install)
      ensures outcome == RolledBack || outcome == Incomplete ==>
        (outcome == RolledBack <==> operation == Install || !enabled || old(config.bytes).layout == "")
      ensures outcome == Done ==>
        && Deploys(root, receipt, owner, old(fs.nodes), old(config.bytes), fs.nodes, config.bytes, release,
                   Previous(operation, root, owner, old(CaptureState())))
        && config.restore == (if operation == Install then Some(old(config.bytes)) else old(config.restore)) && stage == None
      ensures outcome != Refused && !faulty && Consistent(release) && (operation != Install ==> stagePath !in old(fs.nodes)) ==> outcome == Done
    {
      var prior := CaptureState();
      if stage != None || !Admits(operation, root, owner, prior, release) {
        return Refused, false;
      }
      AdmittedBegins(operation, stagePath, release);
      assert prior == StateOf(root, receipt, fs.nodes, prior.shell) && prior.shell == config.bytes;
      hide *;
      outcome, enabled := Carry(At(stagePath), fs.nodes, prior, operation, release, faulty);
    }

    /** What an admitted operation starts from. */
    lemma AdmittedBegins(operation: Operation, stagePath: Path, release: Release)
      requires Environment(stagePath) && stage == None && Admits(operation, root, owner, CaptureState(), release)
      ensures InProgress(At(stagePath), fs.nodes) && IsDir(fs.nodes, Parent(receipt)) && config.pluginRoot == root
      ensures CaptureState() == StateOf(root, receipt, fs.nodes, config.bytes) && At(stagePath).stage == stagePath
      ensures Unambiguous(config.bytes)
      ensures if operation == Install then Absent(config.bytes) else OwnedExactly(config.bytes, root)
      ensures operation == Install <==> !Enabled(config.bytes)
    {
      AdmittedTree(operation, root, receipt, owner, fs.nodes, config.bytes, release);
      NoProgress(At(stagePath), fs.nodes);
      hide ValidReceipt, SafeTree, Separate, Rooted, DistinctInodes;
    }

    /** An admitted operation, carried out or undone. */
    method Carry(site: Site, ghost all: Tree, prior: Snapshot, operation: Operation, release: Release, faulty: bool)
      returns (outcome: Outcome, enabled: bool)
      requires InProgress(site, all) && stage == None && fs.nodes == all && config.pluginRoot == root && [] !in release.assets
      requires prior == StateOf(root, receipt, all, prior.shell) && config.bytes == prior.shell && IsDir(all, Parent(receipt))
      requires Admits(operation, root, owner, prior, release) && Unambiguous(prior.shell)
      requires if operation == Install then Absent(prior.shell) else OwnedExactly(prior.shell, root)
      requires operation == Install <==> !Enabled(prior.shell)
      modifies fs, config, this`stage
      ensures fs.Valid() && outcome != Refused
      ensures outcome == RolledBack ==>
        && fs.nodes == all && config.bytes == prior.shell && stage == None
        && (config.restore == old(config.restore) || operation == Install)
      ensures outcome == Incomplete <==> outcome != Done && operation != Install && enabled && prior.shell.layout != ""
      ensures outcome == Done ==>
        && Deploys(root, receipt, owner, all, prior.shell, fs.nodes, config.bytes, release, Previous(operation, root, owner, prior))
        && config.restore == (if operation == Install then Some(prior.shell) else old(config.restore)) && stage == None
      ensures !faulty && Consistent(release) && (operation != Install ==> site.stage !in all) ==> outcome == Done
    {
      hide *;
      ghost var restore := config.restore;
      var previous := Previous(operation, root, owner, prior);
      var ok;
      ok, enabled := Perform(site, all, prior, previous, operation, release, faulty);
      if ok {
        Conclude(site, all, prior.shell, release, previous);
        return Done, true;
      }
      var complete := RecoverFrom(site, all, prior, operation, restore, enabled);
      outcome := if complete then RolledBack else Incomplete;
    }

    /**
     * Removes an owned installation. Without faults it completes exactly when disabling the plugin gives back the bytes the
     * receipt recorded, with no entry of the plugin in them. When it does not, or a step fails before the first removal, nothing
     * has been removed, and the uninstall is rolled back exactly when the shell bytes can be restored.
     */
    method Uninstall(stagePath: Path, faulty: bool) returns (outcome: Outcome)
      requires Environment(stagePath)
      modifies fs, config, this`stage
      ensures fs.Valid()
      ensures var state := old(CaptureState()); var current := ValidReceipt(root, owner, state);
        && (outcome == Refused <==> old(stage) != None || !Unambiguous(state.shell) || current == None || !OwnedExactly(state.shell, root))
        && (outcome == Done ==> Removable(current.value, state.shell, old(config.restore)))
        && (outcome == Done ==> config.bytes == current.value.preimage && config.restore == None)
        && (!faulty && outcome != Refused ==>
              && (outcome == Done <==> Removable(current.value, state.shell, old(config.restore)))
              && (outcome == RolledBack <==> AfterDisable(state.shell, old(config.restore)) != current.value.preimage
                                             && DisableUndone(state.shell, old(config.restore))))
        && (outcome != Refused && AfterDisable(state.shell, old(config.restore)) != current.value.preimage ==> fs.nodes == old(fs.nodes))
      ensures outcome == Done ==> Uninstalls(root, receipt, old(fs.nodes), fs.nodes)
      ensures outcome == Refused ==> config.restore == old(config.restore)
      ensures outcome == Refused || outcome == RolledBack ==> fs.nodes == old(fs.nodes) && config.bytes == old(config.bytes) && stage == old(stage)
    {
      var prior := CaptureState();
      var current := ValidReceipt(root, owner, prior);
      if stage != None || !Unambiguous(prior.shell) || current == None || !OwnedExactly(prior.shell, root) {
        return Refused;
      }
      UninstallBegins(stagePath, current.value);
      hide ValidReceipt, OwnedExactly, Unambiguous, ShellAfterRestore, Separate, Rooted, DistinctInodes, InProgress, Environment, StateOf;
      var fails: bool := *;
      if faulty && fails {
        outcome := UndoDisable(stagePath, prior);
        return;
      }
      config.Disable();
      fails := *;
      if config.bytes != current.value.preimage || (faulty && fails) {
        outcome := UndoDisable(stagePath, prior);
        return;
      }
      RemoveTree(prior.tree, root);
      var removed := fs.RemoveFileExact(receipt, Recorded(prior.receipt));
      assert removed;
      fails := *;
      outcome := if Absent(config.bytes) && !(faulty && fails) then Done else Incomplete;
    }

    /** Enabling again after a disable gives the bytes back. */
    predicate DisableUndone(shell: ShellBytes, restore: Option<ShellBytes>) {
      ShellAfterRestore(root, AfterDisable(shell, restore), None, shell) == Some(shell)
    }

    lemma UninstallBegins(stagePath: Path, current: Receipt)
      requires Environment(stagePath) && stage == None && ValidReceipt(root, owner, CaptureState()) == Some(current)
      ensures InProgress(At(stagePath), fs.nodes) && root != [] && root in fs.nodes
      ensures CaptureState() == StateOf(root, receipt, fs.nodes, config.bytes)
    {
      ValidTreeIsSafe(root, owner, fs.nodes, current);
      NoProgress(At(stagePath), fs.nodes);
    }

    /** Recovery before anything has been removed: only the shell can need undoing. */
    method UndoDisable(stagePath: Path, prior: Snapshot) returns (outcome: Outcome)
      requires InProgress(At(stagePath), fs.nodes) && stage == None && config.pluginRoot == root
      requires prior == StateOf(root, receipt, fs.nodes, prior.shell)
      modifies fs, config, this`stage
      ensures fs.Valid() && fs.nodes == old(fs.nodes) && stage == None
      ensures outcome == RolledBack || outcome == Incomplete
      ensures outcome == RolledBack <==> ShellAfterRestore(root, old(config.bytes), old(config.restore), prior.shell) == Some(prior.shell)
      ensures outcome == RolledBack ==> config.bytes == prior.shell
    {
      hide *;
      var complete := Recover(At(stagePath), fs.nodes, prior);
      outcome := if complete then RolledBack else Incomplete;
    }

    /** Everything between validation and the cleanup of the stage. */
    method Perform(site: Site, ghost all: Tree, prior: Snapshot, previous: Option<Receipt>, operation: Operation, release: Release, faulty: bool)
      returns (ok: bool, enabled: bool)
      requires InProgress(site, all) && stage == None && fs.nodes == all && config.pluginRoot == root && [] !in release.assets
      requires prior == StateOf(root, receipt, all, prior.shell) && config.bytes == prior.shell && Admits(operation, root, owner, prior, release) && IsDir(all, Parent(receipt))
      requires previous == Previous(operation, root, owner, prior)
      modifies fs, config, this`stage
      ensures InProgress(site, all) && ShellAt(prior.shell, old(config.restore), enabled) && (ok ==> enabled)
      ensures ok ==> ReleaseTree(root, release, owner, fs.nodes) && config.bytes == AfterEnable(prior.shell, root)
      ensures ok ==> receipt in fs.nodes && config.restore == if Enabled(prior.shell) then old(config.restore) else Some(prior.shell)
      ensures ok ==> ReceiptFor(root, owner, fs.nodes, fs.nodes[receipt], release, previous, prior.shell, config.bytes)
      ensures !faulty && Consistent(release) && (operation != Install ==> site.stage !in all) ==> ok
    {
      assert Rooted(all);
      AdmittedTree(operation, root, receipt, owner, all, prior.shell, release);
      assert prior.receipt == (if receipt in all then Some(all[receipt]) else None) && prior.tree == Subtree(all, root);
      NotEnabled();
      hide *;
      enabled := false;
      ok := Populate(site, all, prior.tree, operation != Install, release, faulty);
      if ok {
        ok, enabled := Register(site, all, prior, previous, release, faulty);
        if ok {
          assert config.bytes == AfterEnable(prior.shell, root) by { ShellEnabled(prior.shell, old(config.restore)); }
          ShellEnabled(prior.shell, old(config.restore));
        }
      }
    }

    lemma NotEnabled()
      ensures ShellAt(config.bytes, config.restore, false)
    {
    }

    lemma ShellEnabled(bytes: ShellBytes, restore: Option<ShellBytes>)
      requires ShellAt(bytes, restore, true)
      ensures config.bytes == AfterEnable(bytes, root) && config.restore == if Enabled(bytes) then restore else Some(bytes)
    {
    }

    method Conclude(site: Site, ghost all: Tree, ghost shell: ShellBytes, ghost release: Release, ghost previous: Option<Receipt>)
      requires InProgress(site, all) && receipt in fs.nodes && config.bytes == AfterEnable(shell, root)
      requires ReleaseTree(root, release, owner, fs.nodes)
      requires ReceiptFor(root, owner, fs.nodes, fs.nodes[receipt], release, previous, shell, config.bytes)
      modifies fs, this`stage
      ensures fs.Valid() && stage == None
      ensures Deploys(root, receipt, owner, all, shell, fs.nodes, config.bytes, release, previous)
    {
      assert site.root == root && site.receipt == receipt;
      if stage == None {
        FinishedUnstaged(site, owner, all, fs.nodes, shell, config.bytes, release, previous);
      } else {
        Finished(site, owner, all, StagedSet(), fs.nodes, shell, config.bytes, release, previous);
      }
      hide *;
      FinalizeStage(site, all);
    }

    /** Recovery after a failure before or after enable. */
    method RecoverFrom(site: Site, ghost all: Tree, prior: Snapshot, operation: Operation, ghost restore: Option<ShellBytes>, ghost enabled: bool)
      returns (complete: bool)
      requires InProgress(site, all) && config.pluginRoot == root && prior == StateOf(root, receipt, all, prior.shell)
      requires Unambiguous(prior.shell) && if operation == Install then Absent(prior.shell) else OwnedExactly(prior.shell, root)
      requires ShellAt(prior.shell, restore, enabled)
      modifies fs, config, this`stage
      ensures fs.Valid() && stage == None
      ensures complete <==> operation == Install || !enabled || prior.shell.layout == ""
      ensures complete ==> fs.nodes == all && config.bytes == prior.shell && (operation == Install || config.restore == restore)
    {
      if operation == Install {
        InstallShellRestorable(root, prior.shell);
      } else {
        ReplaceShellRestorable(root, prior.shell, config.restore);
      }
      hide InProgress;
      complete := Recover(site, all, prior);
    }

    /** Moves everything obsolete below the staging path, unless that path is occupied. */
    method StageObsolete(site: Site, ghost all: Tree, prior: Tree, release: Release) returns (ok: bool)
      requires InProgress(site, all) && stage == None && fs.nodes == all && prior == Subtree(all, root) && root in all
      modifies fs, this`stage
      ensures InProgress(site, all)
      ensures ok <==> site.stage !in all
      ensures !ok ==> fs.nodes == all && stage == None
      ensures ok ==> StagedSet() == StagedRoots(all, root, release) && PluginExact(site, all, StagedSet(), fs.nodes)
    {
      var roots := StagedRoots(prior, root, release);
      StagedRootsOfSubtree(all, root, release);
      if site.stage in fs.nodes {
        return false;
      }
      NothingBelowMissing(all, site.stage);
      ProperRoots(site, all, release);
      if roots == {} {
        assert PluginExact(site, all, {}, all);
        return true;
      }
      CreateStage(site, all);
      var entries := StageAll(site, all, roots);
      stage := Some(ActiveStage(site.stage, entries, Some(Subtree(fs.nodes, site.stage))));
      ok := true;
    }

    method CreateStage(site: Site, ghost all: Tree)
      requires fs.Valid() && Separate(site) && Rooted(all) && fs.nodes == all
      requires IsDir(all, Parent(site.stage)) && Vacant(all, site.stage) && (site.receipt in all ==> all[site.receipt].File?)
      modifies fs
      ensures fs.Valid() && IsDir(fs.nodes, Parent(site.stage)) && IsDir(fs.nodes, site.stage)
      ensures Progress(site, all, {}, fs.nodes) && PluginExact(site, all, {}, fs.nodes) && StageTidy(site, {}, fs.nodes, owner)
    {
      StageMade(site, all, owner) by { assert Within(site.stage, site.stage); }
      ghost var inode := fs.nextInode;
      hide *;
      var made := fs.EnsureDirectory(site.stage, owner, STAGE_MODE);
      assert made;
      StageCreated(site, all, fs.nodes, owner, inode);
    }

    method StageAll(site: Site, ghost all: Tree, roots: set<Path>) returns (entries: seq<Path>)
      requires fs.Valid() && Separate(site) && Rooted(all) && ProperStaged(site, all, roots)
      requires IsDir(fs.nodes, Parent(site.stage)) && IsDir(fs.nodes, site.stage)
      requires Progress(site, all, {}, fs.nodes) && PluginExact(site, all, {}, fs.nodes) && StageTidy(site, {}, fs.nodes, owner)
      modifies fs
      ensures fs.Valid() && IsDir(fs.nodes, site.stage) && AsSet(entries) == roots
      ensures Distinct(entries)
      ensures Progress(site, all, roots, fs.nodes) && PluginExact(site, all, roots, fs.nodes)
      ensures StageTidy(site, roots, fs.nodes, owner)
    {
      entries := [];
      assert AsSet<Path>([]) == {};
      hide *;
      ghost var done: set<Path> := {};
      while AsSet(entries) != roots
        invariant done <= roots && AsSet(entries) == done
        invariant Distinct(entries)
        invariant fs.Valid() && IsDir(fs.nodes, Parent(site.stage)) && IsDir(fs.nodes, site.stage)
        invariant Progress(site, all, done, fs.nodes) && PluginExact(site, all, done, fs.nodes)
        invariant StageTidy(site, done, fs.nodes, owner)
        decreases roots - done
      {
        SomeLeft(done, roots);
        var entry :| entry in roots - AsSet(entries);
        SubsetProper(site, all, roots, done + {entry});
        StageOne(site, all, done, entry);
        AppendSets(entries, entry);
        entries := entries + [entry];
        done := done + {entry};
      }
    }

    /** Renames one entry below the stage, creating the directories that lead there. */
    method StageOne(site: Site, ghost all: Tree, ghost done: set<Path>, entry: Path)
      requires fs.Valid() && Rooted(all) && Separate(site) && IsDir(fs.nodes, Parent(site.stage)) && IsDir(fs.nodes, site.stage)
      requires Progress(site, all, done, fs.nodes) && PluginExact(site, all, done, fs.nodes) && StageTidy(site, done, fs.nodes, owner)
      requires ProperStaged(site, all, done + {entry}) && entry !in done
      modifies fs
      ensures fs.Valid() && IsDir(fs.nodes, Parent(site.stage)) && IsDir(fs.nodes, site.stage)
      ensures Progress(site, all, done + {entry}, fs.nodes) && PluginExact(site, all, done + {entry}, fs.nodes)
      ensures StageTidy(site, done + {entry}, fs.nodes, owner)
    {
      ghost var before := fs.nodes;
      assert Rooted(before);
      DestinationFree(site, all, done, entry, before, owner);
      hide *;
      var made := EnsureSafeDirectory(Parent(Destination(site, entry)));
      assert made;
      LeadingDirectories(site, all, done, entry, before, fs.nodes, owner);
      RenameStaged(site, all, done, entry);
    }

    method RenameStaged(site: Site, ghost all: Tree, ghost done: set<Path>, entry: Path)
      requires fs.Valid() && Separate(site) && ProperStaged(site, all, done + {entry}) && entry !in done
      requires Progress(site, all, done, fs.nodes) && PluginExact(site, all, done, fs.nodes)
      requires StageTidy(site, done + {entry}, fs.nodes, owner)
      requires IsDir(fs.nodes, site.stage) && IsDir(fs.nodes, Parent(site.stage))
      requires Within(site.root, entry) && entry in fs.nodes
      requires Vacant(fs.nodes, Destination(site, entry)) && Destination(site, entry) != []
      requires IsDir(fs.nodes, Parent(Destination(site, entry)))
      modifies fs
      ensures fs.Valid() && IsDir(fs.nodes, Parent(site.stage)) && IsDir(fs.nodes, site.stage)
      ensures Progress(site, all, done + {entry}, fs.nodes) && PluginExact(site, all, done + {entry}, fs.nodes)
      ensures StageTidy(site, done + {entry}, fs.nodes, owner)
    {
      var destination := Destination(site, entry);
      DestinationApart(site, entry);
      StagedOne(site, all, done, entry, fs.nodes);
      StagedOneTidy(site, all, done, entry, fs.nodes, owner);
      assert entry != [];
      hide *;
      var renamed := fs.RenameExact(entry, IdentityOf(fs.nodes, entry), destination);
      assert renamed;
    }
  }

  lemma {:induction false} PrefixesPresent(nodes: Tree, p: Path)
    requires Rooted(nodes) && p in nodes
    ensures forall q :: Within(q, p) ==> q in nodes
  {
    forall q | Within(q, p) { AncestorPresent(nodes, q, p); }
  }

  lemma SomeLeft<T>(some: set<T>, all: set<T>)
    requires some <= all && some != all
    ensures exists x :: x in all - some
  {
    assert some + (all - some) == all;
    assert some + {} == some;
  }

  lemma RootParent(site: Site, all: Tree, staged: set<Path>, now: Tree)
    requires Separate(site) && Progress(site, all, staged, now) && IsDir(all, Parent(site.root))
    requires Parent(site.stage) == Parent(site.root)
    ensures IsDir(now, Parent(site.root))
  {
    WithinParent(site.root, site.root);
    WithinParent(site.stage, site.stage);
    WithinParent(site.root, site.receipt);
    var up := Parent(site.root);
    assert !Within(site.root, up) && !Within(site.stage, up);
    assert up != site.receipt;
  }

  /** One needed directory made, as it bears on an operation in progress. */
  lemma ReleaseDirectoryMade(site: Site, all: Tree, staged: set<Path>, release: Release, before: Tree, now: Tree, later: Tree, d: Path, owner: string)
    requires Separate(site) && Rooted(now) && Progress(site, all, staged, now) && IsDir(now, Parent(site.root))
    requires NeedsDirectory(release, d) && DirectoriesAdded(site.root, release, before, now, owner)
    requires forall p :: p in later <==> p in now || Within(p, site.root + d)
    requires forall p :: p in now ==> later[p] == now[p]
    requires forall p :: p in later && p !in now ==> SafeDirectory(later[p], owner)
    requires site.root + d in now ==> IsDir(now, site.root + d)
    ensures Progress(site, all, staged, later) && DirectoriesAdded(site.root, release, before, later, owner)
    ensures Subtree(later, site.stage) == Subtree(now, site.stage)
    ensures StageTidy(site, staged, now, owner) ==> StageTidy(site, staged, later, owner)
    ensures StageSame(site, all, now) ==> StageSame(site, all, later)
    ensures IsDir(now, site.stage) ==> IsDir(later, site.stage)
    ensures IsDir(later, site.root + d)
  {
    assert Within(site.root + d, site.root + d);
    DirectoryAdded(site, all, staged, release, now, later, d, owner);
    forall p | Within(site.stage, p) ensures !Within(site.root, p) {
      if Within(site.root, p) { InPlugin(site, p); }
    }
    StageKept(site, all, staged, now, later, owner);
  }

  lemma ExactWithoutStage(site: Site, all: Tree, now: Tree)
    requires Separate(site) && PluginExact(site, all, {}, now)
    ensures PluginExact(site, all, {}, Without(now, site.stage))
  {
    forall p | Within(site.root, p) || p == site.receipt ensures !Within(site.stage, p) { InPlugin(site, p); }
  }

  lemma BothVacant(site: Site, all: Tree, now: Tree)
    requires Vacant(all, site.stage) && Vacant(now, site.stage)
    ensures StageSame(site, all, now)
  {
  }

  /** The parent of an asset's target is a needed directory. */
  lemma AssetParent(root: Path, release: Release, a: Path)
    requires a in release.assets && a != []
    ensures root + a != [] && Parent(root + a) == root + Parent(a) && NeedsDirectory(release, Parent(a))
  {
    assert Within(Parent(a), a);
  }

  lemma StagedRootsOfSubtree(all: Tree, root: Path, release: Release)
    ensures StagedRoots(Subtree(all, root), root, release) == StagedRoots(all, root, release)
  {
    assert ObsoleteFiles(Subtree(all, root), root, release) == ObsoleteFiles(all, root, release);
    assert ObsoleteDirectories(Subtree(all, root), root, release) == ObsoleteDirectories(all, root, release);
  }

  lemma ProperRoots(site: Site, all: Tree, release: Release)
    requires Rooted(all)
    ensures ProperStaged(site, all, StagedRoots(all, site.root, release))
  {
    var roots := StagedRoots(all, site.root, release);
    forall a, b | a in roots && b in roots && Within(a, b) {
      StagedNotNested(all, site.root, release, a, b);
    }
  }

  lemma SubsetProper(site: Site, all: Tree, roots: set<Path>, some: set<Path>)
    requires ProperStaged(site, all, roots) && some <= roots
    ensures ProperStaged(site, all, some)
  {
  }

  /** Creating the staging directory: everything above it is a directory already. */
  lemma StageMade(site: Site, all: Tree, owner: string)
    requires Separate(site) && Rooted(all) && IsDir(all, Parent(site.stage)) && site.stage !in all
    ensures forall q :: q in all && Within(q, site.stage) ==> all[q].Dir?
    ensures forall q :: Within(q, site.stage) && q != site.stage ==> q in all
  {
    forall q | Within(q, site.stage) && q != site.stage ensures IsDir(all, q) {
      WithinParent(q, site.stage);
      AncestorPresent(all, q, Parent(site.stage));
    }
  }

  lemma OnlyStageAdded(site: Site, all: Tree, now: Tree, owner: string, inode: nat)
    requires Vacant(all, site.stage) && PrefixesMade(all, now, site.stage, |site.stage| + 1, owner, STAGE_MODE, inode) && IsDir(now, site.stage)
    requires forall q :: Within(q, site.stage) && q != site.stage ==> q in all
    ensures forall p :: p in now <==> p in all || p == site.stage
    ensures forall p :: p in all ==> now[p] == all[p]
    ensures SafeDirectory(now[site.stage], owner)
  {
    assert Within(site.stage, site.stage);
  }

  /** The stage alone has been added, so the plugin is as it was and nothing lies in the stage yet. */
  lemma StageAlone(site: Site, all: Tree, now: Tree, owner: string)
    requires Separate(site) && Vacant(all, site.stage) && (site.receipt in all ==> all[site.receipt].File?)
    requires forall p :: p in now <==> p in all || p == site.stage
    requires forall p :: p in all ==> now[p] == all[p]
    requires site.stage in now && SafeDirectory(now[site.stage], owner)
    ensures PluginExact(site, all, {}, now) && StageTidy(site, {}, now, owner)
  {
    assert Within(site.stage, site.stage);
    hide SafeDirectory, Rooted;
  }

  lemma StageProgress(site: Site, all: Tree, now: Tree)
    requires Separate(site) && Vacant(all, site.stage) && (site.receipt in all ==> all[site.receipt].File?)
    requires forall p :: p in now <==> p in all || p == site.stage
    requires forall p :: p in all ==> now[p] == all[p]
    ensures Progress(site, all, {}, now)
  {
    assert Within(site.stage, site.stage);
  }

  lemma StageCreated(site: Site, all: Tree, now: Tree, owner: string, inode: nat)
    requires Separate(site) && Rooted(all) && IsDir(all, Parent(site.stage)) && Vacant(all, site.stage)
    requires site.receipt in all ==> all[site.receipt].File?
    requires PrefixesMade(all, now, site.stage, |site.stage| + 1, owner, STAGE_MODE, inode) && IsDir(now, site.stage)
    requires forall q :: Within(q, site.stage) && q != site.stage ==> q in all
    ensures Progress(site, all, {}, now) && PluginExact(site, all, {}, now) && StageTidy(site, {}, now, owner)
    ensures IsDir(now, site.stage) && IsDir(now, Parent(site.stage))
  {
    OnlyStageAdded(site, all, now, owner, inode);
    StageAlone(site, all, now, owner);
    StageProgress(site, all, now);
    hide SafeDirectory, PrefixesMade, Rooted, PluginExact, StageTidy, Progress, Separate, Vacant, Within;
  }

  lemma FileParent(nodes: Tree, p: Path)
    requires Rooted(nodes) && IsFile(nodes, p)
    ensures p != [] && IsDir(nodes, Parent(p))
  {
  }

  lemma RewrittenOne(before: Tree, files: Tree, todo: set<Path>, p: Path)
    requires p in todo && todo <= files.Keys
    ensures (before + (files - todo))[p := files[p]] == before + (files - (todo - {p}))
    ensures p in before ==> (before + (files - todo))[p] == before[p]
  {
  }

  /** The head of a list sorted by descending path length; the order among equals is free. */
  method PickLongest(s: set<Path>) returns (p: Path)
    requires s != {}
    ensures p in s && forall q :: q in s ==> TextLength(q) <= TextLength(p)
  {
    SomeLongest(s);
    p :| p in s && forall q :: q in s ==> TextLength(q) <= TextLength(p);
  }

  function FilesOf(tree: Tree): set<Path> {
    set p | p in tree && tree[p].File?
  }

  function DirectoriesBelow(tree: Tree, top: Path): set<Path> {
    set p | p in tree && tree[p].Dir? && p != top
  }

  /** Once its files are gone, a tree's directories hold only each other, and then its top holds nothing. */
  lemma TreeParts(before: Tree, top: Path)
    requires top in before && before[top].Dir? && top != []
    ensures var tree := Subtree(before, top); var files := FilesOf(tree); var dirs := DirectoriesBelow(tree, top);
      && top in tree && tree[top] == before[top]
      && (forall p :: p in files ==> IsFile(before, p) && p in tree && tree[p] == before[p])
      && (forall p :: p in dirs ==> p != [] && IsDir(before - files, p) && p in tree && tree[p] == before[p] == (before - files)[p])
      && (forall c :: c in before - files && c != [] && Parent(c) in dirs ==> c in dirs)
      && IsDir(before - files - dirs, top) && (before - files - dirs)[top] == before[top]
      && (forall c :: c in before - files - dirs && c != [] ==> Parent(c) != top)
      && before - files - dirs - {top} == Without(before, top)
  {
    forall c | c in before && c != [] && Within(top, Parent(c)) ensures Within(top, c) && c != top {
      WithinParent(top, c);
    }
    assert Within(top, top);
  }

  lemma DropTwice<K, V>(m: map<K, V>, a: set<K>, b: set<K>)
    ensures m - a - b == m - (a + b)
  {
  }

  /** The longest directory still to go is empty, when the directories hold nothing but each other. */
  lemma ChildrenGone(before: Tree, dirs: set<Path>, done: set<Path>, p: Path)
    requires forall c :: c in before && c != [] && Parent(c) in dirs ==> c in dirs
    requires p in dirs - done && forall q :: q in dirs - done ==> TextLength(q) <= TextLength(p)
    ensures Children(before - done, p) == {}
  {
    forall c | c != [] && Parent(c) == p ensures c !in before || c in done {
      assert TextLength(c) > TextLength(p);
    }
  }
}
