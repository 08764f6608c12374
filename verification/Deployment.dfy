/** What a deployed release looks like in the filesystem map, and the receipt that describes it. */
module Deployment {
  import opened Paths
  import opened Contracts
  import opened Filesystem
  import opened ShellConfiguration
  import opened Staging
  import opened Recovery

  /** What captureState reads. */
  datatype Snapshot = Snapshot(tree: Tree, receipt: Option<Node>, shell: ShellBytes)

  /** The plugin root holds the release's assets, their ancestor directories, and nothing else. */
  ghost predicate ReleaseTree(root: Path, release: Release, owner: string, nodes: Tree) {
    forall p :: Within(root, p) ==>
      var rel := Relative(root, p);
      && (p in nodes <==> rel in release.assets || NeedsDirectory(release, rel))
      && (rel in release.assets ==> IsAsset(nodes[p], release.assets[rel], owner))
      && (NeedsDirectory(release, rel) ==> SafeDirectory(nodes[p], owner))
  }

  predicate IsAsset(node: Node, bytes: string, owner: string) {
    node.File? && node.owner == owner && node.mode == ASSET_MODE && node.bytes == Text(bytes)
  }

  /** No asset path is a directory another asset needs. */
  ghost predicate Consistent(release: Release) {
    forall a :: a in release.assets ==> !NeedsDirectory(release, a)
  }

  /** The assets in `done` have been written, and nothing else has changed. */
  ghost predicate AssetsWritten(root: Path, release: Release, done: set<Path>, before: Tree, now: Tree, owner: string) {
    forall p ::
      if Within(root, p) && Relative(root, p) in done && Relative(root, p) in release.assets
      then p in now && IsAsset(now[p], release.assets[Relative(root, p)], owner)
      else (p in now <==> p in before) && (p in now ==> now[p] == before[p])
  }

  lemma AssetWritten(root: Path, release: Release, done: set<Path>, a: Path, before: Tree, now: Tree, node: Node, owner: string)
    requires AssetsWritten(root, release, done, before, now, owner) && a in release.assets
    requires IsAsset(node, release.assets[a], owner)
    ensures AssetsWritten(root, release, done + {a}, before, now[root + a := node], owner)
  {
    forall p | Within(root, p) ensures p == root + a <==> Relative(root, p) == a {
      assert p == root + Relative(root, p);
    }
  }

  /** Writing one asset keeps everything recovery relies on. */
  lemma AssetProgress(site: Site, all: Tree, staged: set<Path>, release: Release, done: set<Path>, a: Path,
                      before: Tree, now: Tree, node: Node, owner: string)
    requires Separate(site) && Progress(site, all, staged, now) && a in release.assets
    requires AssetsWritten(site.root, release, done, before, now, owner) && IsAsset(node, release.assets[a], owner)
    requires site.root + a in now ==> now[site.root + a].File? && now[site.root + a].inode == node.inode
    requires forall d :: NeedsDirectory(release, d) ==> IsDir(now, site.root + d)
    ensures var later := now[site.root + a := node];
      && Progress(site, all, staged, later) && AssetsWritten(site.root, release, done + {a}, before, later, owner)
      && (forall d :: NeedsDirectory(release, d) ==> IsDir(later, site.root + d))
      && Subtree(later, site.stage) == Subtree(now, site.stage)
      && (StageTidy(site, staged, now, owner) ==> StageTidy(site, staged, later, owner))
      && (StageSame(site, all, now) ==> StageSame(site, all, later))
      && (IsDir(now, site.stage) ==> IsDir(later, site.stage))
  {
    var target := site.root + a;
    assert Within(site.root, target);
    AssetWritten(site.root, release, done, a, before, now, node, owner);
    ProgressByWrite(site, all, staged, now, target, node);
    InPlugin(site, target);
    StageKept(site, all, staged, now, now[target := node], owner);
  }

  /** The target of an asset not yet written is as it was, so a ready target passes the source's check. */
  lemma TargetStillReady(root: Path, release: Release, done: set<Path>, a: Path, all: Tree, before: Tree, now: Tree, owner: string)
    requires a in release.assets && a !in done && AssetsWritten(root, release, done, before, now, owner)
    requires TargetsReady(root, release, all, before)
    ensures if IsFile(all, root + a) then root + a in now && now[root + a] == all[root + a] else root + a !in now
  {
    assert Within(root, root + a) && Relative(root, root + a) == a;
  }

  /** Every asset's target is either the untouched prior file or missing. */
  ghost predicate TargetsReady(root: Path, release: Release, prior: Tree, now: Tree) {
    forall a :: a in release.assets ==>
      if IsFile(prior, root + a) then root + a in now && now[root + a] == prior[root + a] else root + a !in now
  }

  lemma ReadyAfterStaging(site: Site, release: Release, all: Tree, base: Tree, mid: Tree, owner: string)
    requires Rooted(all) && Consistent(release) && [] !in release.assets
    requires PluginExact(site, all, StagedRoots(all, site.root, release), base)
    requires DirectoriesAdded(site.root, release, base, mid, owner)
    ensures TargetsReady(site.root, release, all, mid)
  {
    forall a | a in release.assets ensures
      if IsFile(all, site.root + a) then site.root + a in mid && mid[site.root + a] == all[site.root + a] else site.root + a !in mid
    {
      var p := site.root + a;
      assert Within(site.root, p) && Relative(site.root, p) == a && p != site.root;
      if IsFile(all, p) {
        KeptNotStaged(all, site.root, release, p);
      } else if p in base {
        UncoveredKept(all, site.root, release, p);
      }
    }
  }

  /** The directories of the plugin tree are the owner's and not writable by others. */
  ghost predicate SafeTree(root: Path, nodes: Tree, owner: string) {
    forall p :: p in nodes && Within(root, p) && nodes[p].Dir? ==> SafeDirectory(nodes[p], owner)
  }

  /** After staging, the directories a consistent release needs are missing or safe directories. */
  lemma DirectoriesClear(site: Site, release: Release, all: Tree, base: Tree, owner: string)
    requires Rooted(all) && Consistent(release) && SafeTree(site.root, all, owner)
    requires site.root in all ==> all[site.root].Dir?
    requires PluginExact(site, all, StagedRoots(all, site.root, release), base)
    ensures forall d :: NeedsDirectory(release, d) && site.root + d in base ==> SafeDirectory(base[site.root + d], owner)
  {
    forall d | NeedsDirectory(release, d) && site.root + d in base ensures SafeDirectory(base[site.root + d], owner) {
      var p := site.root + d;
      assert Within(site.root, p) && Relative(site.root, p) == d;
      if p != site.root {
        UncoveredKept(all, site.root, release, p);
      }
    }
  }

  lemma NothingToStage(site: Site, release: Release, all: Tree)
    requires Rooted(all) && site.root !in all
    ensures StagedRoots(all, site.root, release) == {} && PluginExact(site, all, {}, all)
  {
    NothingBelow(all, site.root);
  }

  /** None of this touches the receipt. */
  lemma ReceiptUntouched(site: Site, release: Release, all: Tree, staged: set<Path>, base: Tree, mid: Tree, now: Tree, owner: string)
    requires Separate(site) && ProperStaged(site, all, staged) && PluginExact(site, all, staged, base)
    requires DirectoriesAdded(site.root, release, base, mid, owner)
    requires AssetsWritten(site.root, release, release.assets.Keys, mid, now, owner)
    ensures site.receipt in now <==> site.receipt in all
    ensures site.receipt in all ==> now[site.receipt] == all[site.receipt]
  {
    if Covered(staged, site.receipt) {
      var r :| r in staged && Within(r, site.receipt);
      WithinTransitive(site.root, r, site.receipt);
    }
  }

  /** Staging, making directories and writing assets leave exactly the release. */
  lemma Deployed(site: Site, release: Release, all: Tree, base: Tree, mid: Tree, now: Tree, owner: string)
    requires Rooted(all) && [] !in release.assets && SafeTree(site.root, all, owner)
    requires PluginExact(site, all, StagedRoots(all, site.root, release), base)
    requires DirectoriesAdded(site.root, release, base, mid, owner)
    requires AssetsWritten(site.root, release, release.assets.Keys, mid, now, owner)
    requires forall d :: NeedsDirectory(release, d) ==> IsDir(mid, site.root + d) && IsDir(now, site.root + d)
    ensures ReleaseTree(site.root, release, owner, now) && Consistent(release)
  {
    forall a | a in release.assets ensures !NeedsDirectory(release, a) {
      assert Within(site.root, site.root + a) && Relative(site.root, site.root + a) == a;
    }
    forall p | Within(site.root, p) ensures
      var rel := Relative(site.root, p);
      && (p in now <==> rel in release.assets || NeedsDirectory(release, rel))
      && (rel in release.assets ==> IsAsset(now[p], release.assets[rel], owner))
      && (NeedsDirectory(release, rel) ==> SafeDirectory(now[p], owner))
    {
      assert p == site.root + Relative(site.root, p);
      if p in base && p != site.root {
        UncoveredKept(all, site.root, release, p);
      }
    }
  }

  predicate OwnedReceipt(node: Node, owner: string) {
    node.File? && node.owner == owner && node.mode == RECEIPT_MODE
  }

  /** Writing the receipt over the prior one, or where there was none, keeps everything recovery relies on. */
  lemma ReceiptProgress(site: Site, all: Tree, staged: set<Path>, now: Tree, node: Node, owner: string)
    requires Separate(site) && Progress(site, all, staged, now) && OwnedReceipt(node, owner)
    requires site.receipt in now ==> OwnedReceipt(now[site.receipt], owner) && now[site.receipt].inode == node.inode
    ensures var later := now[site.receipt := node];
      && Progress(site, all, staged, later)
      && Subtree(later, site.stage) == Subtree(now, site.stage) && Subtree(later, site.root) == Subtree(now, site.root)
      && (StageTidy(site, staged, now, owner) ==> StageTidy(site, staged, later, owner))
      && (StageSame(site, all, now) ==> StageSame(site, all, later))
      && (IsDir(now, site.stage) ==> IsDir(later, site.stage))
  {
    ProgressByWrite(site, all, staged, now, site.receipt, node);
    InPlugin(site, site.receipt);
    StageKept(site, all, staged, now, now[site.receipt := node], owner);
  }

  /** The directory of the receipt survives whatever has happened. */
  lemma ReceiptDirectory(site: Site, all: Tree, staged: set<Path>, now: Tree)
    requires Separate(site) && Progress(site, all, staged, now) && IsDir(all, Parent(site.receipt))
    ensures IsDir(now, Parent(site.receipt))
  {
    WithinParent(site.root, site.receipt);
    WithinParent(site.stage, site.receipt);
    assert Parent(site.receipt) != site.receipt;
  }

  function Inventory(root: Path, release: Release, tree: Tree): map<Path, AssetReceipt>
    requires forall a :: a in release.assets ==> root + a in tree && tree[root + a].File? && tree[root + a].bytes.Text?
  {
    map a | a in release.assets ::
      var node := tree[root + a]; AssetReceipt(node.bytes.text, node.owner, node.mode, node.inode)
  }

  function ListedNode(asset: AssetReceipt): Node {
    File(asset.owner, asset.mode, asset.inode, Text(asset.bytes))
  }

  /** The inventory lists the installed files as they are. */
  predicate InventoryOf(root: Path, r: Receipt, nodes: Tree) {
    && r.assets.Keys == r.release.assets.Keys
    && forall a :: a in r.assets ==> root + a in nodes && nodes[root + a] == ListedNode(r.assets[a])
  }

  predicate EntryMatches(r: Receipt, owner: string, rel: Path, node: Node) {
    match node
    case Dir(_, _, _) => rel in DirectoriesOf(r.release) && SafeDirectory(node, owner)
    case File(o, m, i, bytes) =>
      && rel in r.release.assets && rel in r.assets
      && var asset := r.assets[rel];
      o == asset.owner && m == asset.mode && i == asset.inode && bytes == Text(asset.bytes)
  }

  /** The installed tree against the receipt: kinds, ownership, modes, inodes, bytes, and no entry missing. */
  predicate MatchesReceipt(root: Path, r: Receipt, owner: string, tree: Tree) {
    && root in tree
    && (forall p :: p in tree && Within(root, p) ==> EntryMatches(r, owner, Relative(root, p), tree[p]))
    && (forall a :: a in r.release.assets ==> IsFile(tree, root + a))
    && (forall d :: d in DirectoriesOf(r.release) ==> IsDir(tree, root + d))
  }

  predicate SafeInventory(r: Receipt, owner: string) {
    && r.assets.Keys == r.release.assets.Keys && [] !in r.release.assets
    && forall a :: a in r.assets ==> r.assets[a].owner == owner && r.assets[a].mode == ASSET_MODE
  }

  /** The receipt a captured state proves ownership with, if it does. */
  function ValidReceipt(root: Path, owner: string, state: Snapshot): Option<Receipt> {
    match state.receipt
    case Some(File(o, mode, _, ReceiptText(r))) =>
      if && o == owner && mode == RECEIPT_MODE
         && state.shell == r.postimage
         && SafeInventory(r, owner) && MatchesReceipt(root, r, owner, state.tree)
      then Some(r) else None
    case _ => None
  }

  lemma ValidTreeIsSafe(root: Path, owner: string, nodes: Tree, r: Receipt)
    requires MatchesReceipt(root, r, owner, Subtree(nodes, root))
    ensures root in nodes && SafeTree(root, nodes, owner)
  {
  }

  /** The receipt written after a deployment. */
  function BuildReceipt(root: Path, release: Release, previous: Option<Receipt>, tree: Tree, shell: ShellBytes, postimage: ShellBytes): Receipt
    requires forall a :: a in release.assets ==> root + a in tree && tree[root + a].File? && tree[root + a].bytes.Text?
  {
    match previous
    case None => Receipt(release, None, Inventory(root, release, tree), shell, postimage)
    case Some(before) => Receipt(release, Some(before.release), Inventory(root, release, tree), before.preimage, postimage)
  }

  /** The receipt of a deployment: every receipt carries the first one's preimage on. */
  ghost predicate Built(r: Receipt, release: Release, previous: Option<Receipt>, shell: ShellBytes, postimage: ShellBytes) {
    && r.release == release
    && (forall a :: a in r.assets ==> a in release.assets && r.assets[a].bytes == release.assets[a])
    && r.previous == (if previous == None then None else Some(previous.value.release))
    && r.preimage == (if previous == None then shell else previous.value.preimage)
    && r.postimage == postimage
  }

  /** A receipt node for `release` as it stands in the plugin root of `nodes`. */
  ghost predicate ReceiptFor(root: Path, owner: string, nodes: Tree, node: Node, release: Release, previous: Option<Receipt>,
                             shell: ShellBytes, postimage: ShellBytes) {
    && OwnedReceipt(node, owner) && node.bytes.ReceiptText?
    && var r := node.bytes.receipt;
    InventoryOf(root, r, nodes) && Built(r, release, previous, shell, postimage)
  }

  /** The inventory can be taken of a deployed release. */
  lemma AssetsPresent(root: Path, release: Release, owner: string, nodes: Tree)
    requires ReleaseTree(root, release, owner, nodes)
    ensures forall a :: a in release.assets ==> var tree := Subtree(nodes, root);
      root + a in tree && tree[root + a].File? && tree[root + a].bytes.Text? && IsAsset(tree[root + a], release.assets[a], owner)
  {
    forall a | a in release.assets ensures Within(root, root + a) && Relative(root, root + a) == a { }
  }

  /** The receipt that is built describes the deployment it is written beside, and validates with it. */
  lemma BuiltReceipt(site: Site, release: Release, previous: Option<Receipt>, owner: string, nodes: Tree, later: Tree, shell: ShellBytes, postimage: ShellBytes)
    requires Separate(site) && ReleaseTree(site.root, release, owner, nodes) && [] !in release.assets
    requires forall p :: Within(site.root, p) ==> (p in later <==> p in nodes) && (p in later ==> later[p] == nodes[p])
    requires forall a :: a in release.assets ==> var tree := Subtree(nodes, site.root);
      site.root + a in tree && tree[site.root + a].File? && tree[site.root + a].bytes.Text?
    requires site.receipt in later && OwnedReceipt(later[site.receipt], owner)
    requires later[site.receipt].bytes == ReceiptText(BuildReceipt(site.root, release, previous, Subtree(nodes, site.root), shell, postimage))
    ensures ReleaseTree(site.root, release, owner, later)
    ensures ReceiptFor(site.root, owner, later, later[site.receipt], release, previous, shell, postimage)
    ensures ValidReceipt(site.root, owner, Snapshot(Subtree(later, site.root), Some(later[site.receipt]), postimage)).Some?
  {
    AssetsPresent(site.root, release, owner, nodes);
    var r := BuildReceipt(site.root, release, previous, Subtree(nodes, site.root), shell, postimage);
    hide NeedsDirectory, SafeDirectory;
    InventoryBuilt(site.root, release, previous, owner, nodes, later, shell, postimage);
    assert ReleaseTree(site.root, release, owner, later);
    hide *;
    DeployedMatches(site.root, owner, r, later);
    DescribedBy(site.root, owner, later, later[site.receipt], release, previous, shell, postimage, r);
    ValidatedBy(site.root, owner, Subtree(later, site.root), later[site.receipt], r);
  }

  lemma InventoryBuilt(root: Path, release: Release, previous: Option<Receipt>, owner: string, nodes: Tree, later: Tree, shell: ShellBytes, postimage: ShellBytes)
    requires [] !in release.assets
    requires forall p :: Within(root, p) ==> (p in later <==> p in nodes) && (p in later ==> later[p] == nodes[p])
    requires forall a :: a in release.assets ==> var tree := Subtree(nodes, root);
      root + a in tree && tree[root + a].File? && tree[root + a].bytes.Text? && IsAsset(tree[root + a], release.assets[a], owner)
    ensures var r := BuildReceipt(root, release, previous, Subtree(nodes, root), shell, postimage);
      && InventoryOf(root, r, later) && SafeInventory(r, owner) && Built(r, release, previous, shell, postimage)
  {
    var r := BuildReceipt(root, release, previous, Subtree(nodes, root), shell, postimage);
    forall a | a in r.assets ensures root + a in later && later[root + a] == ListedNode(r.assets[a]) {
      assert Within(root, root + a);
    }
  }

  lemma DescribedBy(root: Path, owner: string, nodes: Tree, node: Node, release: Release, previous: Option<Receipt>,
                    shell: ShellBytes, postimage: ShellBytes, r: Receipt)
    requires OwnedReceipt(node, owner) && node.bytes == ReceiptText(r)
    requires InventoryOf(root, r, nodes) && Built(r, release, previous, shell, postimage)
    ensures ReceiptFor(root, owner, nodes, node, release, previous, shell, postimage) && r.postimage == postimage
  {
  }

  lemma ValidatedBy(root: Path, owner: string, tree: Tree, node: Node, r: Receipt)
    requires OwnedReceipt(node, owner) && node.bytes == ReceiptText(r) && SafeInventory(r, owner) && MatchesReceipt(root, r, owner, tree)
    ensures ValidReceipt(root, owner, Snapshot(tree, Some(node), r.postimage)) == Some(r)
  {
    hide SafeInventory, MatchesReceipt;
    assert node == File(owner, RECEIPT_MODE, node.inode, ReceiptText(r));
  }

  lemma EntryDeployed(root: Path, owner: string, r: Receipt, nodes: Tree, p: Path)
    requires ReleaseTree(root, r.release, owner, nodes) && InventoryOf(root, r, nodes)
    requires p in nodes && Within(root, p)
    ensures EntryMatches(r, owner, Relative(root, p), nodes[p])
  {
    hide NeedsDirectory;
    assert p == root + Relative(root, p);
  }

  lemma ReleasePresent(root: Path, owner: string, release: Release, nodes: Tree)
    requires ReleaseTree(root, release, owner, nodes)
    ensures root in nodes
    ensures forall a :: a in release.assets ==> IsFile(Subtree(nodes, root), root + a) && IsAsset(nodes[root + a], release.assets[a], owner)
    ensures forall d :: NeedsDirectory(release, d) ==> IsDir(Subtree(nodes, root), root + d)
  {
    assert root + [] == root && NeedsDirectory(release, []);
    hide NeedsDirectory;
    forall rel: Path ensures Within(root, root + rel) && Relative(root, root + rel) == rel { }
  }

  /** A freshly deployed release validates against the receipt built from it. */
  lemma DeployedMatches(root: Path, owner: string, r: Receipt, nodes: Tree)
    requires ReleaseTree(root, r.release, owner, nodes) && InventoryOf(root, r, nodes)
    ensures MatchesReceipt(root, r, owner, Subtree(nodes, root))
    ensures forall a :: a in r.assets ==> r.assets[a].owner == owner && r.assets[a].mode == ASSET_MODE
  {
    ReleasePresent(root, owner, r.release, nodes);
    assert Within(root, root);
    hide ReleaseTree, NeedsDirectory, EntryMatches;
    forall p | p in Subtree(nodes, root) && Within(root, p) ensures EntryMatches(r, owner, Relative(root, p), Subtree(nodes, root)[p]) {
      EntryDeployed(root, owner, r, nodes, p);
    }
  }

  /** A valid tree is the release's tree when the inventory carries the release's bytes. */
  lemma MatchesIsRelease(root: Path, owner: string, r: Receipt, nodes: Tree)
    requires MatchesReceipt(root, r, owner, Subtree(nodes, root)) && SafeInventory(r, owner)
    requires forall a :: a in r.assets ==> r.assets[a].bytes == r.release.assets[a]
    ensures ReleaseTree(root, r.release, owner, nodes) && InventoryOf(root, r, nodes)
  {
    forall rel: Path ensures Within(root, root + rel) && Relative(root, root + rel) == rel { }
    forall p | Within(root, p) ensures p == root + Relative(root, p) { }
  }

  datatype Operation = Install | Update | Rollback

  /** The state an operation accepts; anything else is refused before the first change. */
  predicate Admits(operation: Operation, root: Path, owner: string, state: Snapshot, release: Release) {
    && Unambiguous(state.shell)
    && if operation == Install then
         root !in state.tree && state.receipt == None && Absent(state.shell)
       else
         var current := ValidReceipt(root, owner, state);
         && current.Some? && OwnedExactly(state.shell, root)
         && (operation == Rollback ==> current.value.previous == Some(release))
  }

  /** The receipt a replacement starts from. */
  function Previous(operation: Operation, root: Path, owner: string, state: Snapshot): Option<Receipt> {
    if operation == Install then None else ValidReceipt(root, owner, state)
  }

  function StateOf(root: Path, receipt: Path, nodes: Tree, shell: ShellBytes): Snapshot {
    Snapshot(Subtree(nodes, root), if receipt in nodes then Some(nodes[receipt]) else None, shell)
  }

  /** What a completed operation has done to the filesystem and to shell.json. */
  ghost predicate Deploys(root: Path, receipt: Path, owner: string, before: Tree, shell: ShellBytes, after: Tree, shellAfter: ShellBytes,
                          release: Release, previous: Option<Receipt>) {
    && ReleaseTree(root, release, owner, after)
    && receipt in after && ReceiptFor(root, owner, after, after[receipt], release, previous, shell, shellAfter)
    && shellAfter == AfterEnable(shell, root)
    && forall p :: !Within(root, p) && p != receipt ==> (p in after <==> p in before) && (p in after ==> after[p] == before[p])
  }

  /** What an admissible state tells the file operations. */
  lemma AdmittedTree(operation: Operation, root: Path, receipt: Path, owner: string, nodes: Tree, shell: ShellBytes, release: Release)
    requires Rooted(nodes) && Admits(operation, root, owner, StateOf(root, receipt, nodes, shell), release)
    ensures root in nodes <==> operation != Install
    ensures root in nodes ==> nodes[root].Dir?
    ensures SafeTree(root, nodes, owner) && MayEnable(shell, root)
    ensures receipt in nodes ==> operation != Install && OwnedReceipt(nodes[receipt], owner)
  {
    assert Within(root, root) && Relative(root, root) == [];
    if operation == Install {
      NothingBelow(nodes, root);
    } else {
      ValidTreeIsSafe(root, owner, nodes, ValidReceipt(root, owner, StateOf(root, receipt, nodes, shell)).value);
    }
  }

  /** Dropping the stage leaves the deployment, and nothing else the operation made. */
  lemma Finished(site: Site, owner: string, all: Tree, staged: set<Path>, now: Tree, shell: ShellBytes, shellAfter: ShellBytes, release: Release, previous: Option<Receipt>)
    requires Separate(site) && Progress(site, all, staged, now) && Vacant(all, site.stage)
    requires ReleaseTree(site.root, release, owner, now) && shellAfter == AfterEnable(shell, site.root)
    requires site.receipt in now && ReceiptFor(site.root, owner, now, now[site.receipt], release, previous, shell, shellAfter)
    ensures Deploys(site.root, site.receipt, owner, all, shell, Without(now, site.stage), shellAfter, release, previous)
  {
    var after := Without(now, site.stage);
    forall p | Within(site.root, p) || p == site.receipt ensures p in after <==> p in now {
      InPlugin(site, p);
    }
    forall a: Path ensures Within(site.root, site.root + a) { }
  }

  /** The same when there was no stage. */
  lemma FinishedUnstaged(site: Site, owner: string, all: Tree, now: Tree, shell: ShellBytes, shellAfter: ShellBytes, release: Release, previous: Option<Receipt>)
    requires Separate(site) && Progress(site, all, {}, now) && StageSame(site, all, now)
    requires ReleaseTree(site.root, release, owner, now) && shellAfter == AfterEnable(shell, site.root)
    requires site.receipt in now && ReceiptFor(site.root, owner, now, now[site.receipt], release, previous, shell, shellAfter)
    ensures Deploys(site.root, site.receipt, owner, all, shell, now, shellAfter, release, previous)
  {
  }

  /** What the shell holds after recovery's attempt to restore `prior`, if its guard lets it try. */
  function ShellAfterRestore(root: Path, bytes: ShellBytes, restore: Option<ShellBytes>, prior: ShellBytes): Option<ShellBytes> {
    if bytes == prior then Some(bytes)
    else if Enabled(prior) then if MayEnable(bytes, root) then Some(AfterEnable(bytes, root)) else None
    else if OwnedExactly(bytes, root) then Some(AfterDisable(bytes, restore))
    else None
  }

  /** Undoing an install's enable always gives the bytes back, whatever their layout. */
  lemma InstallShellRestorable(root: Path, shell: ShellBytes)
    requires Unambiguous(shell) && Absent(shell)
    ensures ShellAfterRestore(root, AfterEnable(shell, root), Some(shell), shell) == Some(shell)
  {
    EnableOwns(shell, root);
  }

  /** Undoing a replacement's enable gives the bytes back exactly when they had JSON.stringify's layout. */
  lemma ReplaceShellRestorable(root: Path, shell: ShellBytes, restore: Option<ShellBytes>)
    requires Unambiguous(shell) && OwnedExactly(shell, root)
    ensures ShellAfterRestore(root, AfterEnable(shell, root), restore, shell) == Some(shell) <==> shell.layout == ""
  {
    EnableOwns(shell, root);
    EnableIdempotent(shell, root);
  }

  /** Bytes in another layout come back printed: the document survives, the bytes do not. */
  lemma RelaidShellLost(root: Path, restore: Option<ShellBytes>, layout: string)
    requires layout != ""
    ensures var shell := ShellBytes(ShellDocument([PLUGIN], [(PLUGIN, Some(root))], ""), layout);
      && Unambiguous(shell) && OwnedExactly(shell, root)
      && ShellAfterRestore(root, AfterEnable(shell, root), restore, shell) == Some(Printed(shell.document))
  {
    var shell := ShellBytes(ShellDocument([PLUGIN], [(PLUGIN, Some(root))], ""), layout);
    OccurrencesAppend([], PLUGIN, PLUGIN);
    assert [] + [PLUGIN] == [PLUGIN];
    assert SourceOf(shell.document.sources, PLUGIN) == Some(root);
    SetSourceReads(shell.document.sources, PLUGIN, root);
    EnableOwns(shell, root);
  }

  /** Undoing an uninstall's disable gives the bytes back exactly when the plugin came last in them, in JSON.stringify's layout. */
  lemma DisableRestorable(root: Path, shell: ShellBytes)
    requires Unambiguous(shell) && OwnedExactly(shell, root)
    ensures ShellAfterRestore(root, AfterDisable(shell, None), None, shell) == Some(shell) <==> shell.layout == "" && EntryLast(shell, root)
  {
    FilteredAndEnabled(shell, root);
  }

  /** What disabling the plugin leaves in shell.json. */
  function AfterDisable(bytes: ShellBytes, restore: Option<ShellBytes>): ShellBytes {
    if restore.Some? then restore.value else AfterFilteringDisable(bytes)
  }

  /** Disabling gives the recorded bytes back, and they do not mention the plugin. */
  predicate Removable(current: Receipt, shell: ShellBytes, restore: Option<ShellBytes>) {
    AfterDisable(shell, restore) == current.preimage && Absent(current.preimage)
  }

  /** The receipt and the plugin tree are gone; everything else stands. */
  ghost predicate Uninstalls(root: Path, receipt: Path, before: Tree, after: Tree) {
    after == Without(before, root) - {receipt}
  }
}
