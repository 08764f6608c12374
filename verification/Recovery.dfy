/** How far a replacement has got, as a relation between the prior and the current filesystem map. */
module Recovery {
  import opened Paths
  import opened Contracts
  import opened Sequences
  import opened Filesystem
  import opened Staging

  /** The paths one plan works with. */
  datatype Site = Site(root: Path, stage: Path, receipt: Path)

  ghost predicate Separate(site: Site) {
    && site.root != [] && site.stage != [] && site.receipt != []
    && !Within(site.root, site.stage) && !Within(site.stage, site.root)
    && !Within(site.root, site.receipt) && !Within(site.receipt, site.root)
    && !Within(site.stage, site.receipt) && !Within(site.receipt, site.stage)
  }

  /** Where staging puts an entry of the plugin tree. */
  function Destination(site: Site, p: Path): Path
    requires Within(site.root, p)
  {
    Rebase(p, site.root, site.stage)
  }

  ghost predicate Outside(site: Site, p: Path) {
    !Within(site.root, p) && !Within(site.stage, p) && p != site.receipt
  }

  ghost predicate OutsideKept(site: Site, prior: Tree, now: Tree) {
    forall p :: Outside(site, p) ==> (p in now <==> p in prior) && (p in now ==> now[p] == prior[p])
  }

  /** What is staged sits at its destination, node for node. */
  ghost predicate StageHolds(site: Site, prior: Tree, staged: set<Path>, now: Tree) {
    forall p :: Within(site.root, p) && Covered(staged, p) ==>
      && (Destination(site, p) in now <==> p in prior)
      && (p in prior ==> now[Destination(site, p)] == prior[p])
  }

  /** A directory is untouched; a file may have been rewritten, keeping its inode. */
  predicate SameOrRewritten(before: Node, after: Node) {
    if before.Dir? then after == before else after.File? && after.inode == before.inode
  }

  ghost predicate PluginKept(site: Site, prior: Tree, staged: set<Path>, now: Tree) {
    forall p :: p in prior && Within(site.root, p) && !Covered(staged, p) ==> p in now && SameOrRewritten(prior[p], now[p])
  }

  ghost predicate ReceiptKept(site: Site, prior: Tree, now: Tree) {
    && (site.receipt in now ==> now[site.receipt].File?)
    && (site.receipt in prior ==>
      && site.receipt in now && prior[site.receipt].File? && SameOrRewritten(prior[site.receipt], now[site.receipt])
      && now[site.receipt].owner == prior[site.receipt].owner && now[site.receipt].mode == prior[site.receipt].mode)
  }

  ghost predicate ProperStaged(site: Site, prior: Tree, staged: set<Path>) {
    && (forall r :: r in staged ==> r in prior && Within(site.root, r) && r != site.root)
    && (forall a, b :: a in staged && b in staged && Within(a, b) ==> a == b)
  }

  ghost predicate Progress(site: Site, prior: Tree, staged: set<Path>, now: Tree) {
    && ProperStaged(site, prior, staged)
    && OutsideKept(site, prior, now)
    && StageHolds(site, prior, staged, now)
    && PluginKept(site, prior, staged, now)
    && ReceiptKept(site, prior, now)
  }

  /** Nothing has happened yet. */
  lemma NoProgress(site: Site, prior: Tree)
    requires site.receipt in prior ==> prior[site.receipt].File?
    ensures Progress(site, prior, {}, prior)
  {
  }

  lemma DestinationApart(site: Site, p: Path)
    requires Separate(site) && Within(site.root, p)
    ensures !Within(site.root, Destination(site, p)) && !Within(p, Destination(site, p)) && !Within(Destination(site, p), p)
    ensures Within(site.stage, Destination(site, p)) && Destination(site, p) != site.receipt
    ensures Destination(site, p) != []
  {
    var d := Destination(site, p);
    if Within(site.root, d) {
      AncestorsNested(site.root, site.stage, d);
    }
    if Within(p, d) {
      WithinTransitive(site.root, p, d);
    }
    if Within(d, p) {
      WithinTransitive(site.stage, d, p);
      AncestorsNested(site.root, site.stage, p);
    }
  }

  lemma InPlugin(site: Site, p: Path)
    requires Separate(site) && (Within(site.root, p) || p == site.receipt)
    ensures !Within(site.stage, p)
  {
    if Within(site.root, p) && Within(site.stage, p) {
      AncestorsNested(site.root, site.stage, p);
    }
  }

  /** Destinations nest exactly as their sources do. */
  lemma DestinationNests(site: Site, r: Path, q: Path)
    requires Within(site.root, r)
    ensures Within(Destination(site, r), q) ==>
      Within(site.stage, q) && Within(r, Rebase(q, site.stage, site.root)) &&
      Rebase(q, Destination(site, r), r) == Rebase(q, site.stage, site.root)
    ensures forall p :: Within(site.root, p) && Destination(site, p) == q && Within(r, p) ==> Within(Destination(site, r), q)
  {
    var d := Destination(site, r);
    if Within(d, q) {
      WithinTransitive(site.stage, d, q);
      assert q == d + q[|d|..];
      assert q[|site.stage|..] == r[|site.root|..] + q[|d|..];
      assert r == site.root + r[|site.root|..];
      assert Rebase(q, site.stage, site.root) == r + q[|d|..];
    }
    forall p | Within(site.root, p) && Destination(site, p) == q && Within(r, p) ensures Within(d, q) {
      assert q[..|d|] == site.stage + p[|site.root|..][..|r| - |site.root|];
      assert p[|site.root|..][..|r| - |site.root|] == r[|site.root|..];
    }
  }

  /** A creation or a rewrite of a file, in the plugin tree or at the receipt, is progress. */
  lemma ProgressByWrite(site: Site, prior: Tree, staged: set<Path>, now: Tree, p: Path, node: Node)
    requires Separate(site) && Progress(site, prior, staged, now)
    requires Within(site.root, p) || p == site.receipt
    requires p in now ==> now[p].File? && node.inode == now[p].inode
    requires p in now || p == site.receipt ==> node.File?
    requires p == site.receipt && p in now ==> node.owner == now[p].owner && node.mode == now[p].mode
    ensures Progress(site, prior, staged, now[p := node])
  {
    forall q | Within(site.root, q) && Covered(staged, q) ensures Destination(site, q) != p {
      DestinationApart(site, q);
    }
  }

  /** Directories made at missing prefixes of a plugin path are progress. */
  lemma ProgressByDirectories(site: Site, prior: Tree, staged: set<Path>, now: Tree, later: Tree, target: Path)
    requires Separate(site) && Progress(site, prior, staged, now) && Rooted(now)
    requires Within(site.root, target) && IsDir(now, Parent(site.root))
    requires forall p :: p in later <==> p in now || Within(p, target)
    requires forall p :: p in now ==> later[p] == now[p]
    ensures Progress(site, prior, staged, later)
    ensures forall p :: p in later && !Within(site.root, p) ==> p in now
  {
    forall p | p in later && p !in now ensures Within(site.root, p) {
      AncestorsNested(p, site.root, target);
      if |p| < |site.root| {
        SameLengthIsSame(p, site.root);
        WithinParent(p, site.root);
        AncestorPresent(now, p, Parent(site.root));
      }
    }
    forall q | Within(site.root, q) && Covered(staged, q) ensures Destination(site, q) in later <==> Destination(site, q) in now {
      DestinationApart(site, q);
    }
  }

  /** Undoing one staged root: whatever replaced it goes away and the original comes back. */
  lemma RestoredOne(site: Site, prior: Tree, staged: set<Path>, r: Path, now: Tree)
    requires Separate(site) && Rooted(prior) && Rooted(now) && Progress(site, prior, staged, now) && r in staged
    ensures Within(site.root, r)
    ensures var d := Destination(site, r); var cleared := Without(now, r);
      && r != [] && d != [] && !Within(d, r) && d in cleared && IdentityOf(cleared, d) == IdentityOf(now, d)
      && Vacant(cleared, r) && IsDir(cleared, Parent(r))
      && Progress(site, prior, staged - {r}, Moved(cleared, d, r))
  {
    var d := Destination(site, r);
    var cleared := Without(now, r);
    DestinationApart(site, r);
    assert Within(r, r);
    WithinParent(site.root, r);
    var up := Parent(r);
    AncestorPresent(prior, up, r);
    assert !Covered(staged, up) by {
      forall s | s in staged ensures !Within(s, up) {
        WithinParent(s, r);
      }
    }
    WithinParent(r, r);
    assert IsDir(cleared, up) by {
      assert !Within(r, up) by { SameLengthIsSame(up, r); }
    }
    var after := Moved(cleared, d, r);
    forall p ensures Covered(staged, p) <==> Covered(staged - {r}, p) || Within(r, p) { }
    RestoredOutside(site, prior, staged, r, now);
    RestoredStage(site, prior, staged, r, now);
    RestoredPlugin(site, prior, staged, r, now);
  }

  lemma RestoredOutside(site: Site, prior: Tree, staged: set<Path>, r: Path, now: Tree)
    requires Separate(site) && Progress(site, prior, staged, now) && r in staged
    requires !Within(Destination(site, r), r)
    ensures var after := Moved(Without(now, r), Destination(site, r), r);
      OutsideKept(site, prior, after) && ReceiptKept(site, prior, after)
  {
    var d := Destination(site, r);
    forall p | Outside(site, p) || p == site.receipt ensures !Within(r, p) && !Within(d, p) {
      if Within(r, p) { WithinTransitive(site.root, r, p); }
      if Within(d, p) { WithinTransitive(site.stage, d, p); }
    }
  }

  lemma RestoredStage(site: Site, prior: Tree, staged: set<Path>, r: Path, now: Tree)
    requires Separate(site) && Progress(site, prior, staged, now) && r in staged
    requires !Within(Destination(site, r), r)
    ensures StageHolds(site, prior, staged - {r}, Moved(Without(now, r), Destination(site, r), r))
  {
    var d := Destination(site, r);
    var after := Moved(Without(now, r), d, r);
    forall p | Within(site.root, p) && Covered(staged - {r}, p)
      ensures (Destination(site, p) in after <==> p in prior) && (p in prior ==> after[Destination(site, p)] == prior[p])
    {
      var q := Destination(site, p);
      var s :| s in staged - {r} && Within(s, p);
      assert Covered(staged, p);
      DestinationApart(site, p);
      DestinationNests(site, r, q);
      RebaseInverse(p, site.root, site.stage);
      if Within(r, q) { WithinTransitive(site.root, r, q); }
      if Within(d, q) { AncestorsNested(r, s, p); }
    }
  }

  lemma DestinationBelow(site: Site, r: Path, p: Path)
    requires Within(site.root, r) && Within(r, p) && Within(site.root, p)
    ensures Rebase(p, r, Destination(site, r)) == Destination(site, p)
  {
    assert p[|site.root|..] == r[|site.root|..] + p[|r|..];
    Regrouped(site.stage, r[|site.root|..], p[|r|..]);
  }

  /** An entry of the restored subtree is the prior node itself. */
  lemma RestoredEntry(site: Site, prior: Tree, staged: set<Path>, r: Path, now: Tree, p: Path)
    requires Separate(site) && Progress(site, prior, staged, now) && r in staged
    requires !Within(Destination(site, r), r) && p in prior && Within(r, p)
    ensures var after := Moved(Without(now, r), Destination(site, r), r);
      p in after && after[p] == prior[p]
  {
    var q, d := Destination(site, p), Destination(site, r);
    WithinTransitive(site.root, r, p);
    assert q in now && now[q] == prior[p] by { assert Covered(staged, p); }
    DestinationApart(site, p);
    DestinationBelow(site, r, p);
    if Within(r, q) {
      WithinTransitive(site.root, r, q);
    }
    hide Progress, Separate, Destination, Rebase;
    assert q in Without(now, r);
  }

  lemma RestoredPlugin(site: Site, prior: Tree, staged: set<Path>, r: Path, now: Tree)
    requires Separate(site) && Progress(site, prior, staged, now) && r in staged
    requires !Within(Destination(site, r), r)
    ensures PluginKept(site, prior, staged - {r}, Moved(Without(now, r), Destination(site, r), r))
  {
    var d := Destination(site, r);
    var after := Moved(Without(now, r), d, r);
    forall p | p in prior && Within(site.root, p) && !Covered(staged - {r}, p)
      ensures p in after && SameOrRewritten(prior[p], after[p])
    {
      if Within(r, p) {
        RestoredEntry(site, prior, staged, r, now, p);
      } else {
        assert !Covered(staged, p);
        if Within(d, p) {
          WithinTransitive(site.stage, d, p);
          AncestorsNested(site.root, site.stage, p);
        }
      }
    }
  }

  /** The stage may be dropped once nothing is staged. */
  lemma ProgressWithoutStage(site: Site, prior: Tree, now: Tree)
    requires Separate(site) && Progress(site, prior, {}, now)
    ensures Progress(site, prior, {}, Without(now, site.stage))
  {
    forall p | Within(site.root, p) || p == site.receipt ensures !Within(site.stage, p) {
      if Within(site.root, p) && Within(site.stage, p) {
        AncestorsNested(site.root, site.stage, p);
      }
    }
  }

  /** The entries below the roots still staged are as they were when recovery began. */
  ghost predicate Untouched(start: Tree, now: Tree, staged: set<Path>) {
    forall p :: Covered(staged, p) ==> (p in now <==> p in start) && (p in now ==> now[p] == start[p])
  }

  /** The staged subtree is the prior subtree, remapped. */
  lemma StagedSubtree(site: Site, prior: Tree, staged: set<Path>, r: Path, now: Tree)
    requires Separate(site) && Progress(site, prior, staged, now) && r in staged
    ensures !Within(r, Destination(site, r))
    ensures Subtree(now, Destination(site, r)) == Moved(Subtree(Subtree(prior, site.root), r), r, Destination(site, r))
  {
    DestinationApart(site, r);
    forall q | Within(Destination(site, r), q) {
      StagedEntry(site, prior, staged, r, now, q);
    }
    hide Progress, Separate, Destination;
    MovedSubtree(now, Subtree(prior, site.root), r, Destination(site, r));
  }

  /** A subtree that matches another one entry by entry, under a different name, is that one moved. */
  lemma MovedSubtree(now: Tree, was: Tree, src: Path, dst: Path)
    requires !Within(src, dst)
    requires forall q :: Within(dst, q) ==> var p := Rebase(q, dst, src);
      (q in now <==> p in Subtree(was, src)) && (q in now ==> now[q] == was[p])
    ensures Subtree(now, dst) == Moved(Subtree(was, src), src, dst)
  {
    var there, moved := Subtree(now, dst), Moved(Subtree(was, src), src, dst);
    forall q ensures q in there <==> q in moved {
      assert q in moved ==> Within(dst, q);
    }
  }

  lemma StagedEntry(site: Site, prior: Tree, staged: set<Path>, r: Path, now: Tree, q: Path)
    requires Separate(site) && Progress(site, prior, staged, now) && r in staged && Within(Destination(site, r), q)
    ensures var p := Rebase(q, Destination(site, r), r);
      && (q in now <==> p in Subtree(Subtree(prior, site.root), r))
      && (q in now ==> now[q] == Subtree(prior, site.root)[p])
  {
    var p := Rebase(q, Destination(site, r), r);
    DestinationNests(site, r, q);
    RebaseInverse(q, site.stage, site.root);
    WithinTransitive(site.root, r, p);
    assert Destination(site, p) == q && Covered(staged, p);
  }

  /** What recovery finds at a staged source is what it observed when it began. */
  lemma SourceSubtree(site: Site, prior: Tree, start: Tree, staged: set<Path>, r: Path, now: Tree)
    requires Rooted(now) && Progress(site, prior, staged, now) && Untouched(start, now, staged) && r in staged
    ensures Subtree(now, r) == Subtree(Subtree(start, site.root), r)
    ensures r !in now ==> Without(now, r) == now
  {
    NothingBelowMissing(now, r);
    forall p | Within(r, p) ensures Within(site.root, p) && Covered(staged, p) {
      WithinTransitive(site.root, r, p);
    }
  }

  lemma NothingBelowMissing(now: Tree, r: Path)
    requires Rooted(now)
    ensures r !in now ==> Vacant(now, r)
  {
    if r !in now {
      NothingBelow(now, r);
    }
  }

  lemma RestoreStep(site: Site, prior: Tree, start: Tree, staged: set<Path>, r: Path, now: Tree)
    requires Separate(site) && Rooted(now) && Progress(site, prior, staged, now) && r in staged
    requires Untouched(start, now, staged) && IsDir(now, site.stage) && !Within(Destination(site, r), r)
    ensures var after := Moved(Without(now, r), Destination(site, r), r);
      IsDir(after, site.stage) && Untouched(start, after, staged - {r})
  {
    var d := Destination(site, r);
    if Within(r, site.stage) {
      WithinTransitive(site.root, r, site.stage);
    }
    assert |d| > |site.stage| by { SameLengthIsSame(site.root, r); }
    forall p | Covered(staged - {r}, p) ensures !Within(r, p) && !Within(d, p) {
      var s :| s in staged - {r} && Within(s, p);
      if Within(r, p) { AncestorsNested(r, s, p); }
      if Within(d, p) {
        WithinTransitive(site.root, s, p);
        WithinTransitive(site.stage, d, p);
        AncestorsNested(site.root, site.stage, p);
      }
    }
  }

  /** Nothing at the staging path differs from the prior state. */
  ghost predicate StageSame(site: Site, prior: Tree, now: Tree) {
    forall p :: Within(site.stage, p) ==> (p in now <==> p in prior) && (p in now ==> now[p] == prior[p])
  }

  /** The files of a tree, as a map. */
  function FileNodes(tree: Tree): Tree {
    map p | p in tree && tree[p].File? :: tree[p]
  }

  /** The entries of the plugin tree that were not there before. */
  function NewFiles(prior: Tree, tree: Tree): set<Path> {
    set p | p in tree && tree[p].File? && p !in prior
  }

  function NewDirectories(prior: Tree, tree: Tree): set<Path> {
    set p | p in tree && tree[p].Dir? && !IsDir(prior, p)
  }

  /** With nothing staged, recovery may remove the new files, then the new directories, and rewrite the prior files. */
  lemma RestoreParts(site: Site, prior: Tree, now: Tree)
    requires Separate(site) && Rooted(prior) && Rooted(now) && Progress(site, prior, {}, now)
    ensures var was, tree := Subtree(prior, site.root), Subtree(now, site.root);
      var files, dirs := NewFiles(was, tree), NewDirectories(was, tree);
      && (forall p :: p in files ==> IsFile(now, p) && p in tree && tree[p] == now[p])
      && (forall p :: p in dirs ==> p != [] && IsDir(now - files, p) && p in tree && tree[p] == (now - files)[p])
      && (forall c :: c in now - files && c != [] && Parent(c) in dirs ==> c in dirs)
      && (forall p :: IsDir(was, p) ==> p in now - files - dirs)
      && (forall p :: IsFile(was, p) ==> IsFile(now - files - dirs, p) && (now - files - dirs)[p].inode == was[p].inode)
  {
    var was, tree := Subtree(prior, site.root), Subtree(now, site.root);
    forall c | c in now && c != [] && Parent(c) in NewDirectories(was, tree) ensures Within(site.root, c) && c !in was {
      WithinParent(site.root, c);
    }
    forall p | p in prior && Within(site.root, p) ensures p in now && SameOrRewritten(prior[p], now[p]) {
      assert !Covered({}, p);
    }
  }

  /** After those steps everything but the receipt is back. */
  lemma AllRestored(site: Site, prior: Tree, now: Tree)
    requires Separate(site) && Progress(site, prior, {}, now) && StageSame(site, prior, now)
    ensures var was, tree := Subtree(prior, site.root), Subtree(now, site.root);
      var after := now - NewFiles(was, tree) - NewDirectories(was, tree) + FileNodes(was);
      && (forall p :: p != site.receipt ==> (p in after <==> p in prior) && (p in after ==> after[p] == prior[p]))
      && (site.receipt in after <==> site.receipt in now)
      && (site.receipt in after ==> after[site.receipt] == now[site.receipt])
  {
    forall p | p in prior && Within(site.root, p) ensures p in now && SameOrRewritten(prior[p], now[p]) {
      assert !Covered({}, p);
    }
  }

  /** Staging removes exactly the staged subtrees from the plugin tree and changes nothing else there. */
  ghost predicate PluginExact(site: Site, prior: Tree, staged: set<Path>, now: Tree) {
    forall p :: Within(site.root, p) || p == site.receipt ==>
      (p in now <==> p in prior && !Covered(staged, p)) && (p in now ==> now[p] == prior[p])
  }

  /** Undoing one staged root also keeps the rest of the plugin tree exact. */
  lemma RestoredExact(site: Site, prior: Tree, staged: set<Path>, r: Path, now: Tree)
    requires Separate(site) && Progress(site, prior, staged, now) && PluginExact(site, prior, staged, now) && r in staged
    requires !Within(Destination(site, r), r)
    ensures PluginExact(site, prior, staged - {r}, Moved(Without(now, r), Destination(site, r), r))
  {
    var d := Destination(site, r);
    var after := Moved(Without(now, r), d, r);
    forall p | Within(site.root, p) || p == site.receipt
      ensures (p in after <==> p in prior && !Covered(staged - {r}, p)) && (p in after ==> after[p] == prior[p])
    {
      if Within(r, p) {
        RestoredBelow(site, prior, staged, r, now, p);
      } else {
        assert Covered(staged, p) <==> Covered(staged - {r}, p);
        if Within(d, p) {
          WithinTransitive(site.stage, d, p);
          InPlugin(site, p);
        }
      }
    }
  }

  lemma RestoredBelow(site: Site, prior: Tree, staged: set<Path>, r: Path, now: Tree, p: Path)
    requires Separate(site) && Progress(site, prior, staged, now) && r in staged
    requires !Within(Destination(site, r), r) && Within(r, p)
    ensures !Covered(staged - {r}, p)
    ensures var after := Moved(Without(now, r), Destination(site, r), r); (p in after <==> p in prior) && (p in prior ==> after[p] == prior[p])
  {
    WithinTransitive(site.root, r, p);
    if s :| s in staged - {r} && Within(s, p) {
      AncestorsNested(r, s, p);
    }
    if p in prior {
      RestoredEntry(site, prior, staged, r, now, p);
    } else {
      DestinationBelow(site, r, p);
      assert Covered(staged, p);
      assert Destination(site, p) !in now;
    }
  }

  /** With nothing staged and no stage, an exact plugin tree is the prior state. */
  lemma ExactIsPrior(site: Site, prior: Tree, now: Tree)
    requires Progress(site, prior, {}, now) && PluginExact(site, prior, {}, now) && StageSame(site, prior, now)
    ensures now == prior
  {
    forall p ensures (p in now <==> p in prior) && (p in now ==> now[p] == prior[p]) {
      assert !Covered({}, p);
    }
  }

  predicate SafeDirectory(node: Node, owner: string) {
    node.Dir? && node.owner == owner && (node.mode / 16) % 2 == 0 && (node.mode / 2) % 2 == 0
  }

  /** Besides staged entries the stage holds only itself and directories leading to staged entries. */
  ghost predicate StageTidy(site: Site, staged: set<Path>, now: Tree, owner: string) {
    forall q :: q in now && Within(site.stage, q) ==>
      || BelowDestination(site, staged, q)
      || (SafeDirectory(now[q], owner) && (q == site.stage || AboveDestination(site, staged, q)))
  }

  predicate BelowDestination(site: Site, staged: set<Path>, q: Path) {
    exists r :: r in staged && Within(site.root, r) && Within(Destination(site, r), q)
  }

  predicate AboveDestination(site: Site, staged: set<Path>, q: Path) {
    exists r :: r in staged && Within(site.root, r) && Within(q, Destination(site, r))
  }

  /** Before an entry is staged, its destination is vacant and only directories lead to it. */
  lemma DestinationFree(site: Site, prior: Tree, done: set<Path>, r: Path, now: Tree, owner: string)
    requires Separate(site) && Rooted(now) && IsDir(now, site.stage)
    requires ProperStaged(site, prior, done + {r}) && r !in done && StageTidy(site, done, now, owner)
    requires StageHolds(site, prior, done, now)
    ensures Destination(site, r) != [] && Destination(site, r) != site.stage && !Within(r, Destination(site, r))
    ensures Within(site.stage, Parent(Destination(site, r)))
    ensures Vacant(now, Destination(site, r))
    ensures forall q :: q in now && Within(q, Parent(Destination(site, r))) ==> now[q].Dir?
    ensures forall q :: q in now && Within(site.stage, q) && Within(q, Parent(Destination(site, r))) ==> SafeDirectory(now[q], owner)
    ensures forall q :: Within(q, Destination(site, r)) ==> !BelowDestination(site, done, q)
  {
    var d := Destination(site, r);
    DestinationApart(site, r);
    RebaseInverse(r, site.root, site.stage);
    WithinParent(site.stage, d);
    forall s | s in done ensures !Within(Destination(site, s), d) && !Within(d, Destination(site, s)) {
      DestinationsNest(site, s, r);
      DestinationsNest(site, r, s);
    }
    forall q | Within(q, d) ensures !BelowDestination(site, done, q) {
      forall s | s in done && Within(Destination(site, s), q) ensures false {
        WithinTransitive(Destination(site, s), q, d);
      }
    }
    assert Within(d, d);
    NothingBelowMissing(now, d);
    forall q | q in now && Within(q, Parent(d)) ensures now[q].Dir? && (Within(site.stage, q) ==> SafeDirectory(now[q], owner)) {
      WithinParent(q, d);
      if !Within(site.stage, q) {
        AncestorsNested(q, site.stage, Parent(d));
        AncestorPresent(now, q, site.stage);
      }
    }
  }

  lemma DestinationsNest(site: Site, a: Path, b: Path)
    requires Within(site.root, a) && Within(site.root, b)
    ensures Within(Destination(site, a), Destination(site, b)) ==> Within(a, b)
  {
    RebaseInverse(b, site.root, site.stage);
    DestinationNests(site, a, Destination(site, b));
  }

  /** The directories leading to a destination do not disturb what is already staged. */
  lemma ProgressByStageDirectories(site: Site, prior: Tree, done: set<Path>, now: Tree, later: Tree, dir: Path)
    requires Separate(site) && Rooted(now) && Progress(site, prior, done, now) && PluginExact(site, prior, done, now)
    requires Within(site.stage, dir) && IsDir(now, Parent(site.stage))
    requires forall p :: p in later <==> p in now || Within(p, dir)
    requires forall p :: p in now ==> later[p] == now[p]
    requires forall q :: Within(q, dir) ==> !BelowDestination(site, done, q)
    ensures Progress(site, prior, done, later) && PluginExact(site, prior, done, later)
    ensures forall p :: p in later && p !in now ==> Within(site.stage, p)
  {
    forall p | p in later && p !in now ensures Within(site.stage, p) {
      AncestorsNested(p, site.stage, dir);
      if |p| < |site.stage| {
        SameLengthIsSame(p, site.stage);
        WithinParent(p, site.stage);
        AncestorPresent(now, p, Parent(site.stage));
      }
    }
    forall p | Within(site.stage, p) ensures !Within(site.root, p) && p != site.receipt {
      if Within(site.root, p) { AncestorsNested(site.root, site.stage, p); }
    }
    forall p | Within(site.root, p) && Covered(done, p) ensures Destination(site, p) in later <==> Destination(site, p) in now {
      var r :| r in done && Within(r, p);
      DestinationNests(site, r, Destination(site, p));
      assert BelowDestination(site, done, Destination(site, p));
    }
  }

  /** Staging one more root. */
  lemma StagedOne(site: Site, prior: Tree, done: set<Path>, r: Path, now: Tree)
    requires Separate(site) && Progress(site, prior, done, now) && PluginExact(site, prior, done, now)
    requires ProperStaged(site, prior, done + {r}) && r !in done
    requires !Within(r, Destination(site, r)) && Vacant(now, Destination(site, r))
    ensures Progress(site, prior, done + {r}, Moved(now, r, Destination(site, r)))
    ensures PluginExact(site, prior, done + {r}, Moved(now, r, Destination(site, r)))
  {
    var d := Destination(site, r);
    var after := Moved(now, r, d);
    DestinationApart(site, r);
    forall p ensures Covered(done + {r}, p) <==> Covered(done, p) || Within(r, p) { }
    forall p | Within(r, p) ensures Within(site.root, p) && !Covered(done, p) {
      WithinTransitive(site.root, r, p);
      if s :| s in done && Within(s, p) { AncestorsNested(r, s, p); }
    }
    forall p | Within(d, p) ensures Within(site.stage, p) && !Within(site.root, p) && p != site.receipt {
      WithinTransitive(site.stage, d, p);
      if Within(site.root, p) { AncestorsNested(site.root, site.stage, p); }
    }
    StagedOneHolds(site, prior, done, r, now);
  }

  lemma StagedOneHolds(site: Site, prior: Tree, done: set<Path>, r: Path, now: Tree)
    requires Separate(site) && Progress(site, prior, done, now) && PluginExact(site, prior, done, now)
    requires ProperStaged(site, prior, done + {r}) && r !in done
    requires !Within(r, Destination(site, r)) && Vacant(now, Destination(site, r))
    ensures StageHolds(site, prior, done + {r}, Moved(now, r, Destination(site, r)))
  {
    var d := Destination(site, r);
    var after := Moved(now, r, d);
    forall p | Within(site.root, p) && Covered(done + {r}, p)
      ensures (Destination(site, p) in after <==> p in prior) && (p in prior ==> after[Destination(site, p)] == prior[p])
    {
      var q := Destination(site, p);
      var s :| s in done + {r} && Within(s, p);
      DestinationNests(site, s, q);
      DestinationNests(site, r, q);
      RebaseInverse(p, site.root, site.stage);
      DestinationApart(site, p);
      if Within(r, q) { WithinTransitive(site.root, r, q); }
      if s == r {
        assert !Covered(done, p) by {
          if t :| t in done && Within(t, p) { AncestorsNested(r, t, p); }
        }
      } else {
        assert Covered(done, p);
        if Within(d, q) { AncestorsNested(r, s, p); }
      }
    }
  }

  lemma StagedOneTidy(site: Site, prior: Tree, done: set<Path>, r: Path, now: Tree, owner: string)
    requires Separate(site) && ProperStaged(site, prior, done + {r})
    requires !Within(r, Destination(site, r)) && Vacant(now, Destination(site, r))
    requires StageTidy(site, done + {r}, now, owner) && IsDir(now, site.stage)
    ensures var after := Moved(now, r, Destination(site, r)); StageTidy(site, done + {r}, after, owner) && IsDir(after, site.stage)
  {
    var d := Destination(site, r);
    DestinationApart(site, r);
    forall q | Within(site.stage, q) ensures !Within(r, q) {
      if Within(r, q) {
        WithinTransitive(site.root, r, q);
        AncestorsNested(site.root, site.stage, q);
      }
    }
    RebaseInverse(r, site.root, site.stage);
    SameLengthIsSame(site.stage, d);
    assert !Within(d, site.stage);
  }

  /** Once the directories leading to a destination exist, the entry can be renamed there. */
  lemma LeadingDirectories(site: Site, prior: Tree, done: set<Path>, r: Path, before: Tree, later: Tree, owner: string)
    requires Separate(site) && Rooted(before) && IsDir(before, site.stage) && IsDir(before, Parent(site.stage))
    requires Progress(site, prior, done, before) && PluginExact(site, prior, done, before) && StageTidy(site, done, before, owner)
    requires ProperStaged(site, prior, done + {r}) && r !in done
    requires Destination(site, r) != []
    requires forall p :: p in later <==> p in before || Within(p, Parent(Destination(site, r)))
    requires forall p :: p in before ==> later[p] == before[p]
    requires forall p :: p in later && p !in before ==> SafeDirectory(later[p], owner)
    ensures Progress(site, prior, done, later) && PluginExact(site, prior, done, later) && StageTidy(site, done + {r}, later, owner)
    ensures IsDir(later, site.stage) && IsDir(later, Parent(site.stage)) && IsDir(later, Parent(Destination(site, r)))
    ensures r in later && Vacant(later, Destination(site, r))
  {
    var d := Destination(site, r);
    var dir := Parent(d);
    DestinationFree(site, prior, done, r, before, owner);
    forall q | Within(q, dir) ensures Within(q, d) && !Within(d, q) {
      WithinParent(q, d);
    }
    ProgressByStageDirectories(site, prior, done, before, later, dir);
    assert Within(dir, dir);
    forall q | q in later && Within(site.stage, q) ensures
      BelowDestination(site, done + {r}, q) ||
      (SafeDirectory(later[q], owner) && (q == site.stage || AboveDestination(site, done + {r}, q)))
    {
      if q in before && !BelowDestination(site, done, q) && AboveDestination(site, done, q) {
        var s :| s in done && Within(site.root, s) && Within(q, Destination(site, s));
        assert s in done + {r};
      }
      if q in before && BelowDestination(site, done, q) {
        var s :| s in done && Within(site.root, s) && Within(Destination(site, s), q);
        assert s in done + {r};
      }
    }
    assert !Covered(done, r) by {
      assert r in done + {r};
      forall s | s in done ensures !Within(s, r) { assert s in done + {r}; }
    }
  }

  /** Changes elsewhere leave everything that is said about the stage. */
  lemma StageKept(site: Site, prior: Tree, staged: set<Path>, before: Tree, after: Tree, owner: string)
    requires forall p :: Within(site.stage, p) ==> (p in after <==> p in before) && (p in after ==> after[p] == before[p])
    ensures Subtree(after, site.stage) == Subtree(before, site.stage)
    ensures StageTidy(site, staged, before, owner) ==> StageTidy(site, staged, after, owner)
    ensures StageSame(site, prior, before) ==> StageSame(site, prior, after)
    ensures IsDir(before, site.stage) ==> IsDir(after, site.stage)
  {
    assert Within(site.stage, site.stage);
  }

  /** Directories the release needs have been added below the plugin root, and nothing else has changed. */
  ghost predicate DirectoriesAdded(root: Path, release: Release, before: Tree, after: Tree, owner: string) {
    && (forall p :: p in before ==> p in after && after[p] == before[p])
    && (forall p :: p in after && p !in before ==>
          Within(root, p) && NeedsDirectory(release, Relative(root, p)) && SafeDirectory(after[p], owner))
  }

  lemma DirectoryAdded(site: Site, prior: Tree, staged: set<Path>, release: Release, now: Tree, later: Tree, rel: Path, owner: string)
    requires Separate(site) && Rooted(now) && Progress(site, prior, staged, now) && IsDir(now, Parent(site.root))
    requires NeedsDirectory(release, rel)
    requires forall p :: p in later <==> p in now || Within(p, site.root + rel)
    requires forall p :: p in now ==> later[p] == now[p]
    requires forall p :: p in later && p !in now ==> SafeDirectory(later[p], owner)
    ensures Progress(site, prior, staged, later) && DirectoriesAdded(site.root, release, now, later, owner)
  {
    var target := site.root + rel;
    assert Within(site.root, target) && Relative(site.root, target) == rel;
    ProgressByDirectories(site, prior, staged, now, later, target);
    forall p | p in later && p !in now ensures NeedsDirectory(release, Relative(site.root, p)) {
      if p != target {
        AboveNeeded(release, site.root, p, target);
      }
    }
  }

  /** Whatever leads to a needed directory is a directory, once the directories of the release that exist are. */
  lemma NothingInTheWay(site: Site, release: Release, now: Tree, rel: Path)
    requires Separate(site) && Rooted(now) && IsDir(now, Parent(site.root)) && NeedsDirectory(release, rel)
    requires forall d :: NeedsDirectory(release, d) && site.root + d in now ==> now[site.root + d].Dir?
    ensures forall q :: q in now && Within(q, site.root + rel) ==> now[q].Dir?
  {
    var target := site.root + rel;
    assert Within(site.root, target) && Relative(site.root, target) == rel;
    forall q | q in now && Within(q, target) ensures now[q].Dir? {
      AncestorsNested(q, site.root, target);
      if Within(site.root, q) {
        if q != target { AboveNeeded(release, site.root, q, target); }
        assert q == site.root + Relative(site.root, q);
      } else {
        AncestorPresent(now, q, Parent(site.root)) by { WithinParent(q, site.root); }
      }
    }
  }
}
