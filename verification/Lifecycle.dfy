/** Whole lives of an installation: install, any updates, rollbacks and failures, then uninstall. */
module Lifecycle {
  import opened Paths
  import opened Contracts
  import opened Filesystem
  import opened ShellConfiguration
  import opened Staging
  import opened Recovery
  import opened Deployment
  import opened Installation

  /** The filesystem map, shell.json, and what the shell recorded for a disable. */
  datatype World = World(nodes: Tree, shell: ShellBytes, restore: Option<ShellBytes>)

  datatype Place = Place(root: Path, receipt: Path, owner: string)

  ghost predicate Located(place: Place) {
    place.root != [] && place.receipt != [] && !Within(place.root, place.receipt) && !Within(place.receipt, place.root)
  }

  function State(place: Place, w: World): Snapshot {
    StateOf(place.root, place.receipt, w.nodes, w.shell)
  }

  /** A world the plugin has never touched. */
  ghost predicate Clean(place: Place, w: World) {
    && Rooted(w.nodes) && place.root !in w.nodes && place.receipt !in w.nodes
    && Absent(w.shell) && Unambiguous(w.shell)
  }

  /** One completed operation, as Installation.CompanionInstallation.Execute leaves it. */
  ghost predicate Completes(place: Place, operation: Operation, release: Release, w: World, w': World) {
    && [] !in release.assets
    && Admits(operation, place.root, place.owner, State(place, w), release)
    && Deploys(place.root, place.receipt, place.owner, w.nodes, w.shell, w'.nodes, w'.shell, release,
               Previous(operation, place.root, place.owner, State(place, w)))
    && w'.restore == if operation == Install then Some(w.shell) else w.restore
  }

  /** A completed replacement, or a refused or rolled back one. */
  ghost predicate Replaces(place: Place, w: World, w': World) {
    w' == w || exists operation, release :: operation != Install && Completes(place, operation, release, w, w')
  }

  /** The receipt that describes an owned world. */
  function Current(place: Place, w: World): Option<Receipt> {
    ValidReceipt(place.root, place.owner, State(place, w))
  }

  /** What holds from the install on, in terms of the world before it. */
  ghost predicate Owned(place: Place, first: World, w: World) {
    && Current(place, w).Some?
    && (var r := Current(place, w).value;
        r.preimage == first.shell && ReleaseTree(place.root, r.release, place.owner, w.nodes))
    && w.restore == Some(first.shell)
    && OwnedExactly(w.shell, place.root) && Unambiguous(w.shell) && w.shell.layout == ""
    && forall p :: !Within(place.root, p) && p != place.receipt ==>
      (p in w.nodes <==> p in first.nodes) && (p in w.nodes ==> w.nodes[p] == first.nodes[p])
  }

  /** The receipt a completed operation wrote validates, and says what the operation did. */
  lemma CompletedReceipt(place: Place, operation: Operation, release: Release, w: World, w': World)
    requires Completes(place, operation, release, w, w')
    ensures Current(place, w').Some?
    ensures var r, before := Current(place, w').value, Current(place, w);
      && r.release == release
      && (operation == Install ==> r.previous == None && r.preimage == w.shell)
      && (operation != Install ==> before.Some? && r.previous == Some(before.value.release) && r.preimage == before.value.preimage)
  {
    hide NeedsDirectory, ReleaseTree, MatchesReceipt, MayEnable;
    var r := w'.nodes[place.receipt].bytes.receipt;
    DeployedMatches(place.root, place.owner, r, w'.nodes);
  }

  lemma InstallOwns(place: Place, release: Release, first: World, w: World)
    requires Clean(place, first) && Completes(place, Install, release, first, w)
    ensures Owned(place, first, w)
  {
    CompletedReceipt(place, Install, release, first, w);
    EnableOwns(first.shell, place.root);
  }

  lemma ReplaceKeepsOwned(place: Place, first: World, w: World, w': World)
    requires Owned(place, first, w) && Replaces(place, w, w')
    ensures Owned(place, first, w')
  {
    if w' != w {
      var operation, release :| operation != Install && Completes(place, operation, release, w, w');
      CompletedReceipt(place, operation, release, w, w');
      EnableOwns(w.shell, place.root);
    }
  }

  /** After an install, no sequence of replacements loses the way back. */
  lemma {:induction false} StaysOwned(place: Place, release: Release, run: seq<World>)
    requires |run| >= 2 && Clean(place, run[0]) && Completes(place, Install, release, run[0], run[1])
    requires forall i {:trigger run[i]} :: 1 <= i < |run| - 1 ==> Replaces(place, run[i], run[i + 1])
    ensures Owned(place, run[0], run[|run| - 1])
  {
    if |run| == 2 {
      InstallOwns(place, release, run[0], run[1]);
    } else {
      var shorter := run[..|run| - 1];
      StaysOwned(place, release, shorter);
      ReplaceKeepsOwned(place, run[0], run[|run| - 2], run[|run| - 1]);
    }
  }

  lemma UninstallReturns(place: Place, first: World, last: World, after: Tree)
    requires Located(place) && Clean(place, first) && Owned(place, first, last)
    requires Uninstalls(place.root, place.receipt, last.nodes, after)
    ensures Current(place, last).Some? && Removable(Current(place, last).value, last.shell, last.restore)
    ensures AfterDisable(last.shell, last.restore) == first.shell && after == first.nodes
  {
    hide ValidReceipt, ReleaseTree, OwnedExactly, Unambiguous, Absent;
    NothingBelow(first.nodes, place.root);
  }

  /**
   * Install, any number of updates, rollbacks and rolled back failures, then uninstall: the uninstall goes through,
   * and the filesystem and the bytes of shell.json are those from before the install.
   */
  lemma UninstallRestores(place: Place, release: Release, run: seq<World>, after: Tree)
    requires Located(place) && |run| >= 2
    requires Clean(place, run[0]) && Completes(place, Install, release, run[0], run[1])
    requires forall i {:trigger run[i]} :: 1 <= i < |run| - 1 ==> Replaces(place, run[i], run[i + 1])
    requires Uninstalls(place.root, place.receipt, run[|run| - 1].nodes, after)
    ensures var last := run[|run| - 1];
      && Current(place, last).Some? && Removable(Current(place, last).value, last.shell, last.restore)
      && AfterDisable(last.shell, last.restore) == run[0].shell
    ensures after == run[0].nodes
  {
    StaysOwned(place, release, run);
    hide *;
    UninstallReturns(place, run[0], run[|run| - 1], after);
  }

  /** One replacement to attempt: which operation and release, where it may stage, and whether its steps may fail. */
  datatype Step = Step(operation: Operation, release: Release, stagePath: Path, faulty: bool)

  function PlaceOf(companion: CompanionInstallation): Place {
    Place(companion.root, companion.receipt, companion.owner)
  }

  function WorldOf(companion: CompanionInstallation): World
    reads companion.fs, companion.config
  {
    World(companion.fs.nodes, companion.config.bytes, companion.config.restore)
  }

  ghost predicate MayStageAt(companion: CompanionInstallation, stagePath: Path) {
    Separate(companion.At(stagePath)) && Parent(stagePath) == Parent(companion.root)
  }

  /** What lies beside the plugin tree and the receipt is as it was, so the next operation finds its surroundings. */
  lemma StillLocated(place: Place, first: World, w: World)
    requires Located(place) && Owned(place, first, w)
    ensures IsDir(first.nodes, Parent(place.root)) ==> IsDir(w.nodes, Parent(place.root))
    ensures IsDir(first.nodes, Parent(place.receipt)) ==> IsDir(w.nodes, Parent(place.receipt))
  {
    WithinParent(place.root, place.root);
    WithinParent(place.root, place.receipt);
    WithinParent(place.receipt, place.receipt);
    WithinParent(place.receipt, place.root);
    assert Within(place.receipt, place.receipt) && Within(place.root, place.root);
    hide Owned;
    assert Parent(place.root) != place.receipt && Parent(place.receipt) != place.receipt;
  }

  /** An installed plugin is not installed again, and its shell.json has the shell's own layout. */
  lemma OwnedFacts(place: Place, first: World, w: World, release: Release)
    requires Owned(place, first, w)
    ensures !Admits(Install, place.root, place.owner, State(place, w), release) && w.shell.layout == ""
  {
  }

  /** What every operation of a life starts from. */
  ghost predicate Ready(companion: CompanionInstallation, first: World)
    reads companion, companion.fs, companion.config
  {
    && companion.stage == None && companion.fs.Valid() && companion.config.pluginRoot == companion.root
    && Located(PlaceOf(companion)) && Owned(PlaceOf(companion), first, WorldOf(companion))
    && IsDir(first.nodes, Parent(companion.root)) && IsDir(first.nodes, Parent(companion.receipt))
  }

  /** One operation in the middle of a life, whether it completes, is refused or is rolled back. */
  method Attempt(companion: CompanionInstallation, ghost first: World, s: Step)
    requires Ready(companion, first) && MayStageAt(companion, s.stagePath) && [] !in s.release.assets
    modifies companion.fs, companion.config, companion`stage
    ensures Ready(companion, first)
  {
    hide Owned, Admits, Deploys, IsDir, Located, Rooted, DistinctInodes, Separate;
    ghost var place, before := PlaceOf(companion), WorldOf(companion);
    StillLocated(place, first, before);
    OwnedFacts(place, first, before, s.release);
    var outcome, enabled := companion.Execute(s.operation, s.stagePath, s.release, s.faulty);
    ghost var after := WorldOf(companion);
    if outcome == Done {
      assert Completes(place, s.operation, s.release, before, after);
    }
    ReplaceKeepsOwned(place, first, before, after);
  }

  /** The install at the start of a life. */
  method Begin(companion: CompanionInstallation, release: Release, stagePath: Path, faulty: bool) returns (outcome: Outcome)
    requires companion.Environment(stagePath) && companion.stage == None
    requires Clean(PlaceOf(companion), WorldOf(companion)) && [] !in release.assets
    modifies companion.fs, companion.config, companion`stage
    ensures outcome == Done ==> Ready(companion, old(WorldOf(companion)))
    ensures outcome != Done ==> companion.fs.nodes == old(companion.fs.nodes) && companion.config.bytes == old(companion.config.bytes)
    ensures outcome == Done || (outcome == RolledBack && (faulty || !Consistent(release)))
  {
    ghost var place, first := PlaceOf(companion), WorldOf(companion);
    InstallAdmitted(place, first, release);
    hide Owned, Admits, Deploys, IsDir, Rooted, DistinctInodes, Clean;
    var enabled;
    outcome, enabled := companion.Execute(Install, stagePath, release, faulty);
    if outcome == Done {
      InstallOwns(place, release, first, WorldOf(companion));
    }
  }

  lemma InstallAdmitted(place: Place, first: World, release: Release)
    requires Clean(place, first)
    ensures Admits(Install, place.root, place.owner, State(place, first), release)
  {
  }

  lemma OwnedShell(place: Place, first: World, w: World)
    requires Owned(place, first, w)
    ensures OwnedExactly(w.shell, place.root) && Unambiguous(w.shell)
  {
  }

  /** The uninstall at the end of a life. */
  method End(companion: CompanionInstallation, ghost first: World, stagePath: Path) returns (outcome: Outcome)
    requires Ready(companion, first) && Clean(PlaceOf(companion), first) && MayStageAt(companion, stagePath)
    modifies companion.fs, companion.config, companion`stage
    ensures outcome == Done && companion.fs.nodes == first.nodes && companion.config.bytes == first.shell
  {
    ghost var place, last := PlaceOf(companion), WorldOf(companion);
    StillLocated(place, first, last);
    OwnedShell(place, first, last);
    UninstallReturns(place, first, last, Without(last.nodes, place.root) - {place.receipt});
    hide Owned, IsDir, Rooted, DistinctInodes, Clean, Located, Separate, ValidReceipt, OwnedExactly, Removable, Unambiguous;
    outcome := companion.Uninstall(stagePath, false);
  }

  /** The installer run through a whole life: whatever fails on the way, nothing is left of it. */
  method Lifetime(companion: CompanionInstallation, release: Release, stagePath: Path, faulty: bool, steps: seq<Step>)
    returns (installed: Outcome, removed: Outcome)
    requires companion.Environment(stagePath) && companion.stage == None
    requires Clean(PlaceOf(companion), WorldOf(companion)) && [] !in release.assets
    requires forall s :: s in steps ==> MayStageAt(companion, s.stagePath) && [] !in s.release.assets
    modifies companion.fs, companion.config, companion`stage
    ensures companion.fs.nodes == old(companion.fs.nodes) && companion.config.bytes == old(companion.config.bytes)
    ensures installed == Done || (installed == RolledBack && (faulty || !Consistent(release)))
    ensures installed == Done ==> removed == Done
  {
    ghost var place, first := PlaceOf(companion), WorldOf(companion);
    assert MayStageAt(companion, stagePath);
    hide Clean, Ready, CompanionInstallation.Environment, MayStageAt;
    installed := Begin(companion, release, stagePath, faulty);
    removed := Refused;
    if installed != Done {
      return;
    }
    for i := 0 to |steps|
      invariant Ready(companion, first)
    {
      Attempt(companion, first, steps[i]);
    }
    removed := End(companion, first, stagePath);
  }

  /** A replacement of an installation made by this installer is always recoverable: its shell bytes have the shell's own layout. */
  lemma ReplacementRecoverable(place: Place, first: World, w: World)
    requires Owned(place, first, w)
    ensures ShellAfterRestore(place.root, AfterEnable(w.shell, place.root), w.restore, w.shell) == Some(w.shell)
  {
    ReplaceShellRestorable(place.root, w.shell, w.restore);
  }

  /** Two deployments of one release differ in inodes and directory modes at most. */
  lemma SameReleaseSameTree(root: Path, owner: string, release: Release, a: Tree, b: Tree)
    requires ReleaseTree(root, release, owner, a) && ReleaseTree(root, release, owner, b)
    ensures SameFiles(root, a, b)
  {
  }

  ghost predicate SameFiles(root: Path, a: Tree, b: Tree) {
    forall p :: Within(root, p) ==>
      && (p in a <==> p in b)
      && (p in a ==> if a[p].File? then b[p].File? && b[p].bytes == a[p].bytes && b[p].mode == a[p].mode else b[p].Dir?)
  }

  lemma RollbackReceipt(place: Place, first: World, w: World, w': World, to: Release)
    requires Owned(place, first, w) && Completes(place, Rollback, to, w, w')
    ensures Owned(place, first, w') && w'.shell == w.shell
    ensures Current(place, w').value.release == to && Current(place, w').value.previous == Some(Current(place, w).value.release)
    ensures Current(place, w).value.previous == Some(to)
    ensures ReleaseTree(place.root, to, place.owner, w'.nodes)
  {
    CompletedReceipt(place, Rollback, to, w, w');
    EnableIdempotent(w.shell, place.root);
    EnableOwns(w.shell, place.root);
  }

  /** Two rollbacks in a row return to the same pair of releases, the same shell bytes and the same files. */
  lemma TwoRollbacks(place: Place, first: World, w0: World, w1: World, w2: World, to: Release, back: Release)
    requires Owned(place, first, w0)
    requires Completes(place, Rollback, to, w0, w1) && Completes(place, Rollback, back, w1, w2)
    ensures Current(place, w2).Some?
    ensures var r0, r2 := Current(place, w0).value, Current(place, w2).value;
      back == r0.release == r2.release && r2.previous == r0.previous == Some(to) && r2.preimage == r0.preimage
    ensures w2.shell == w0.shell && SameFiles(place.root, w0.nodes, w2.nodes)
  {
    RollbackReceipt(place, first, w0, w1, to);
    RollbackReceipt(place, first, w1, w2, back);
    SameReleaseSameTree(place.root, place.owner, back, w0.nodes, w2.nodes);
  }
}
