# Verified model of the first vertical slice

Dafny models, with proofs, of the parts of `prototypes/first-vertical-slice` that keep state across failures,
retries and interleavings. Run `dafny verify dfyconfig.toml` to check all of it.

- **Plugin installer** (`Paths`, `Contracts`, `Filesystem`, `ShellConfiguration`, `Staging`, `Recovery`,
  `Deployment`, `Installation`, `Lifecycle`). The filesystem is a map from paths to nodes with inodes; install, update,
  rollback and uninstall run over it as methods, and any step between the end of staging and its cleanup may fail.
- **Observer protocol** (`Registry`, `RegistryRuns`, `RegistryGuarantees`, `Publisher`, `Extension`, `Protocol`).
  The registry and the extension as objects, and the two of them with any other traffic over connections that are FIFO
  but can be lost at any moment.
- **Adoption coordinator** (`Coordinator`, `CoordinatorRuns`, `CoordinatorHistory`,
  `CoordinatorProgress`). Each operation is cut at its
  awaits; a run is any interleaving of the pieces, with per-session locks and one commit lock.
- **Adoption and retirement stores** (`AdoptionTables`, `RetirementGuarantees`, `MemoryStore`). Tables with their
  UNIQUE keys, transactions that may fail part way, and the in-memory store that has to agree with them.
- **Streams, printers and projections** (`Sequences`, `Text`, `Ndjson`, `ControlLines`, `CanonicalJson`, `ConsoleProjection`,
  `ProjectionAdapter`). Text is a sequence of UTF-16 code units.

Objects of the program are classes here; each method is specified by a function of the old state, and the guarantees
are lemmas about those functions over whole runs. Clocks, issued ids, authorizer and shell answers, parsing and
validation of envelopes are parameters, so the guarantees hold for all of their values.

## Findings

Where a promise does not hold of the code as it stands, the code was kept, an input is given, and the exact condition is proved.

- `docs/companion-plugin-v1.md` promises that recovery restores the exact prior state while its preconditions match.
  An update or rollback that fails after enable is undone if and only if shell.json had the layout the shell itself
  prints (`Deployment.ReplaceShellRestorable`, `Deployment.RelaidShellLost`); one that fails before enable is always
  undone, as is a failed install (`Installation.CompanionInstallation.Execute`). After an install made by this
  installer the layout is always the printed one (`Lifecycle.ReplacementRecoverable`).
- A registry restart empties the snapshot without moving the revision exactly when there are sessions and no newer
  revision was saved (`RegistryGuarantees.RestartExact`, `RegistryGuarantees.RestartKeepsRevision`).
- A cleared panel reopens exactly when an event past the accepted revision has been published
  (`Publisher.ReopensOnlyForNews`).
- One live run per Team Goal and Role is lost when a role's retired adopted run is purged as a committed run, or when
  a retirement names a run that was never committed. These are exactly the operations that upset the order of
  succession it rests on (`RetirementGuarantees.OrderlyExact`, `RetirementGuarantees.PurgedPredecessorFreesRole`,
  `RetirementGuarantees.UncommittedRetirementFreesRole`). A reused run identity does no harm.
- The failure of a superseded connect attempt puts the projection into the gap state exactly when the attempt was
  detached and there is a baseline; a ready projection is then left in the gap on a live connection
  (`ProjectionAdapter.LateFailureExact`, `ProjectionAdapter.LateConnectFailureGaps`).
- The two adoption stores answer differently exactly when a commit to a free role and binding reuses a proposal or run
  identity (`MemoryStore.StoresDifferExactly`, `MemoryStore.ReusedIdentityDiffers`).

## Model

| member | source | states |
|---|---|---|
| `Filesystem.FakeFilesystem.EnsureDirectory` | prototypes/first-vertical-slice/companion/fake-omarchy.ts:200-225 | Succeeds exactly when no prefix of the path is a file; then every missing prefix is a directory of the owner and nothing else changed; on failure nothing at all has changed. Every non-root node keeps a directory parent. |
| `Filesystem.FakeFilesystem.WriteBytesAtomic` | prototypes/first-vertical-slice/companion/fake-omarchy.ts:227-247 | Succeeds exactly when the parent is a directory and the path is not one; an existing file keeps its inode, a new file gets the next one, every other node stands; the tree stays rooted and inodes distinct. |
| `Filesystem.FakeFilesystem.RenameExact` | prototypes/first-vertical-slice/companion/fake-omarchy.ts:249-274 | Succeeds exactly when the source is there with the given identity, nothing lies at or below the destination, the destination is outside the source and has a directory parent; then the whole subtree has moved node for node. The tree stays rooted. |
| `Filesystem.FakeFilesystem.RemoveFileExact` | prototypes/first-vertical-slice/companion/fake-omarchy.ts:276-281 | Removes exactly one file, and only under its identity; the tree stays rooted. |
| `Filesystem.FakeFilesystem.RemoveDirectoryExact` | prototypes/first-vertical-slice/companion/fake-omarchy.ts:283-292 | Removes exactly one directory, only under its identity and only when it has no children; the tree stays rooted. |
| `Filesystem.MovedBack` | prototypes/first-vertical-slice/companion/fake-omarchy.ts:249-274 | Renaming a subtree to a vacant place and back again gives the identical node map. |
| `Filesystem.MovedRooted` | prototypes/first-vertical-slice/companion/fake-omarchy.ts:249-274 | A legal rename keeps every non-root node under a directory parent. |
| `Filesystem.AncestorPresent` | prototypes/first-vertical-slice/companion/fake-omarchy.ts:200-225 | In a rooted tree every ancestor of a node is there, and is a directory. |
| `Paths.DescendantIsLonger` | prototypes/first-vertical-slice/companion/installation.ts:1009-1052 | A path has a longer text than each of its proper ancestors, which is why sorting by descending length removes children before parents. |
| `ShellConfiguration.FakeConfiguration.Enable` | prototypes/first-vertical-slice/companion/fake-omarchy.ts:488-499 | The new bytes are the printed document with one owned plugin entry; the previous bytes are recorded for a disable exactly when the plugin was not enabled. |
| `ShellConfiguration.FakeConfiguration.Disable` | prototypes/first-vertical-slice/companion/fake-omarchy.ts:501-518 | Gives back the recorded bytes if there are any, and otherwise the printed document without the plugin. |
| `ShellConfiguration.EnableOwns` | prototypes/first-vertical-slice/companion/fake-omarchy.ts:488-499 | Whenever the guard lets enable run, the result has exactly one owned entry and may be enabled again. |
| `ShellConfiguration.EnableIdempotent` | prototypes/first-vertical-slice/companion/fake-omarchy.ts:488-499 | Enabling an already owned entry changes no byte if and only if the file has the layout the shell itself prints. |
| `Staging.DirectoriesOf` | prototypes/first-vertical-slice/companion/installation.ts:205-215 | Exactly the proper ancestors of the assets, and the plugin root. |
| `Staging.ExpectedDirectories` | prototypes/first-vertical-slice/companion/installation.ts:205-215 | The nested loops from each asset up to the root compute exactly that set. |
| `Staging.StagedNotNested` | prototypes/first-vertical-slice/companion/installation.ts:951-1007 | The staged roots are pairwise non-nested. |
| `Staging.ObsoleteUnderOneRoot` | prototypes/first-vertical-slice/companion/installation.ts:951-1007 | Every obsolete file or directory lies under exactly one staged root. |
| `Staging.KeptNotStaged` | prototypes/first-vertical-slice/companion/installation.ts:951-1007 | No file or directory the new release keeps lies under a staged root. |
| `Staging.UncoveredKept` | prototypes/first-vertical-slice/companion/installation.ts:951-1007 | Conversely, whatever lies under no staged root is kept by the new release, in the same kind. |
| `Installation.CompanionInstallation.RemoveTree` | prototypes/first-vertical-slice/companion/installation.ts:1009-1052 | From a captured tree: files first, then directories deepest first, each under its captured identity; every removal goes through and exactly the subtree is gone. |
| `Installation.CompanionInstallation.StageObsolete` | prototypes/first-vertical-slice/companion/installation.ts:951-1007 | Refuses exactly when the staging path is occupied; otherwise the staged set is the set of staged roots, the plugin tree is the prior one without them, and every staged node sits unchanged at its destination. |
| `Installation.CompanionInstallation.RestoreStagedEntries` | prototypes/first-vertical-slice/companion/installation.ts:1394-1461 | Every staged entry is back over whatever had replaced it and the stage is gone; run straight after staging it is the inverse of staging: the node map is the prior one. |
| `Recovery.RestoredOne` | prototypes/first-vertical-slice/companion/installation.ts:1394-1461 | Undoing one staged root: clearing what replaced it and renaming it back is always possible, and leaves the same situation with one root fewer staged. |
| `Recovery.StagedOne` | prototypes/first-vertical-slice/companion/installation.ts:951-1007 | Renaming one more root away keeps everything recovery relies on and keeps the rest of the plugin tree exact. |
| `Recovery.StagedSubtree` | prototypes/first-vertical-slice/companion/installation.ts:254-270 | The subtree found at a destination is the prior subtree remapped there, so the check before the rename back succeeds. |
| `Recovery.AllRestored` | prototypes/first-vertical-slice/companion/installation.ts:1463-1596 | Removing what is new and rewriting the prior files leaves everything but the receipt as before, inodes and modes included. |
| `Installation.CompanionInstallation.RestoreTree` | prototypes/first-vertical-slice/companion/installation.ts:1463-1596 | From any point between the end of staging and its cleanup, once nothing is staged, the node map ends equal to the prior one, receipt included. |
| `Installation.CompanionInstallation.RestoreShell` | prototypes/first-vertical-slice/companion/installation.ts:1463-1596 | Succeeds if and only if the supported enable or disable reproduces the prior bytes of shell.json, and then they are in place. |
| `Installation.CompanionInstallation.EnsureReleaseDirectories` | prototypes/first-vertical-slice/companion/installation.ts:1131-1146 | Adds only directories the release needs, as safe directories of the owner; absent faults it succeeds whenever those that exist are safe. |
| `Installation.CompanionInstallation.WriteAssets` | prototypes/first-vertical-slice/companion/installation.ts:868-944 | Writes every asset of the release and nothing else; absent faults it cannot fail on a consistent release whose targets are as the prior state leads to expect. |
| `Installation.CompanionInstallation.Populate` | prototypes/first-vertical-slice/companion/installation.ts:868-944 | Staging, directories and assets together leave exactly the release tree, also where a path turns from file into directory or back, without touching the receipt; any failure on the way leaves a recoverable situation. |
| `Installation.CompanionInstallation.Register` | prototypes/first-vertical-slice/companion/installation.ts:868-944 | Enables the plugin and writes a receipt that describes the tree it is written beside and validates with it. A failure before enable, after it, or after the receipt is written leaves a recoverable situation, with the shell bytes either untouched or exactly as enable left them. |
| `Installation.CompanionInstallation.FinalizeStage` | prototypes/first-vertical-slice/companion/installation.ts:1054-1066 | No staged entry remains and nothing outside the stage changes. |
| `Installation.CompanionInstallation.Recover` | prototypes/first-vertical-slice/companion/installation.ts:1314-1392 | An operation that fails anywhere after staging and before cleanup is undone completely if and only if shell.json can be restored; then the node map (paths, bytes, owners, modes, inodes), the receipt and shell.json are exactly the prior ones. When it cannot and nothing was staged, the files are left as they are. |
| `Installation.CompanionInstallation.Execute` | prototypes/first-vertical-slice/companion/installation.ts:361-408 | Refused exactly when the state is not admissible. Refused or rolled back: everything is exactly as before. Done: exactly the release, its receipt, the enabled plugin, no stage, and nothing else changed. A failed operation is rolled back if and only if it is an install, or enable had not run yet, or shell.json had the layout the shell prints. Without faults an admitted consistent operation is done. |
| `Installation.CompanionInstallation.Uninstall` | prototypes/first-vertical-slice/companion/installation.ts:1068-1129 | Done only if disabling gives back the recorded preimage without the plugin; then exactly the plugin tree and the receipt are gone. Whenever disabling misses the preimage no file is touched. Without faults it is done exactly in the first case, and rolled back exactly when disabling misses the preimage but enabling again gives the prior bytes back; rolled back, everything is exactly as before. |
| `Deployment.Deployed` | prototypes/first-vertical-slice/companion/installation.ts:868-944 | After staging, directories and assets the plugin root holds exactly the assets with the release's bytes and exactly their ancestor directories. |
| `Deployment.BuiltReceipt` | prototypes/first-vertical-slice/companion/installation.ts:1197-1248 | The receipt that is built lists the deployed files as they are, carries the first preimage on, and validates against the state it is written into. |
| `Deployment.DeployedMatches` | prototypes/first-vertical-slice/companion/installation.ts:742-790 | A freshly deployed release passes the recursive validation of the installed tree against its receipt. |
| `Deployment.MatchesIsRelease` | prototypes/first-vertical-slice/companion/installation.ts:742-790 | Conversely a tree that passes that validation is exactly the release tree, when the inventory carries the release's bytes. |
| `Deployment.InstallShellRestorable` | prototypes/first-vertical-slice/companion/installation.ts:1463-1596 | A failed install always gets its shell.json bytes back, whatever their layout. |
| `Deployment.ReplaceShellRestorable` | prototypes/first-vertical-slice/companion/installation.ts:1463-1596 | After enable has run, a failed update or rollback gets its shell.json bytes back if and only if they had the layout the shell prints. |
| `Deployment.RelaidShellLost` | prototypes/first-vertical-slice/companion/fake-omarchy.ts:488-499 | Concretely: shell.json with the owned entry in any other layout comes back printed, so it is not restored. |
| `Deployment.DisableRestorable` | prototypes/first-vertical-slice/companion/installation.ts:1463-1596 | When nothing was recorded for a disable, undoing the disable of an uninstall gives the bytes back if and only if they had the layout the shell prints and the plugin came last in both of its fields. |
| `Lifecycle.StaysOwned` | prototypes/first-vertical-slice/companion/installation.ts:893-944 | After an install, any sequence of completed, refused or rolled back updates and rollbacks keeps a valid receipt with the original preimage, the recorded restore bytes, and everything outside plugin root and receipt. |
| `Lifecycle.UninstallRestores` | prototypes/first-vertical-slice/companion/installation.ts:1068-1129 | Install, any number of updates, rollbacks and failures, then uninstall: it goes through, and the node map and the bytes of shell.json are those from before the install. |
| `Lifecycle.Lifetime` | prototypes/first-vertical-slice/companion/acceptance.ts:236-253 | The same for the installer object itself: for every release, every list of attempted operations and every pattern of faults, the run ends in the pre-install state, and an uninstall after a completed install succeeds. |
| `Lifecycle.ReplacementRecoverable` | prototypes/first-vertical-slice/companion/installation.ts:1286-1312 | Once this installer has installed, every later failed replacement is recoverable, because the bytes it leaves have the shell's own layout. |
| `Lifecycle.TwoRollbacks` | prototypes/first-vertical-slice/companion/installation.ts:601-608 | Two rollbacks in a row return to the same release pair, the same preimage, the same shell.json bytes and the same files. |
| `Registry.AgentRegistry.Register` | prototypes/first-vertical-slice/observer/registry.ts:127-191 | The state and the reply of a registration, with its error precedence and the capabilities it spends even when it fails later. |
| `Registry.AgentRegistry.Heartbeat` | prototypes/first-vertical-slice/observer/registry.ts:193-214 | The state and the reply of a heartbeat: only a changed status advances the revision and emits an event. |
| `Registry.AgentRegistry.Lifecycle` | prototypes/first-vertical-slice/observer/registry.ts:216-248 | The state and the reply of a lifecycle frame, through the bounded dedup table. |
| `Registry.AgentRegistry.Close` | prototypes/first-vertical-slice/observer/registry.ts:250-264 | The state and the reply of a close frame. |
| `Registry.AgentRegistry.TransportClosed` | prototypes/first-vertical-slice/observer/registry.ts:267-276 | Retires the first session on the transport only. |
| `Registry.AgentRegistry.Expire` | prototypes/first-vertical-slice/observer/registry.ts:279-289 | The sweep that deletes while it scans does what the recursive sweep does. |
| `Registry.AgentRegistry.Reconstruct` | prototypes/first-vertical-slice/observer/registry.ts:332-343 | Drops sessions, marks and log; issued capabilities stay spent. |
| `RegistryRuns.StepValid` | prototypes/first-vertical-slice/observer/registry.ts:106-436 | Every operation keeps: at most 64 sessions with distinct keys and connection ids, marks equal to the sessions' own, bounded duplicate-free dedup tables no newer than the session, and a log of at most 128 events with consecutive revisions ending at the current one. |
| `RegistryGuarantees.HistoryKept` | prototypes/first-vertical-slice/observer/registry.ts:387-417 | Between restarts exactly one event is emitted per revision, in order, and the log is always the last 128 of them. |
| `RegistryGuarantees.RevisionIsVersion` | prototypes/first-vertical-slice/observer/registry.ts:291-304 | Between restarts the revision never falls, and equal revisions mean equal snapshots. |
| `RegistryGuarantees.RestartExact` | prototypes/first-vertical-slice/observer/registry.ts:332-343 | A restart empties the snapshot under an unchanged revision if and only if there are sessions and no newer revision was saved, so the previous property cannot span restarts. |
| `RegistryGuarantees.RestartKeepsRevision` | prototypes/first-vertical-slice/observer/registry.ts:332-343 | A run from the initial state in which that happens: any registration, then a restart without a saved revision. |
| `RegistryGuarantees.StepSequence` | prototypes/first-vertical-slice/observer/registry.ts:419-428 | An accepted frame raises its extension's mark to its own sequence; nothing else moves a mark, and expiry forgets none. |
| `RegistryGuarantees.AcceptedSequencesIncrease` | prototypes/first-vertical-slice/observer/registry.ts:127-264 | Every frame accepted for an extension carries a larger sequence than all accepted before it, across connections and expiry. |
| `RegistryGuarantees.LifecycleOnce` | prototypes/first-vertical-slice/observer/registry.ts:216-248 | A lifecycle frame takes effect at most once, however many other frames have evicted it from the dedup table. |
| `RegistryGuarantees.AcceptedShows` | prototypes/first-vertical-slice/observer/registry.ts:127-248 | An accepted report shows at once in the session of its extension, available and with a lease of 15000 ms from its time. |
| `RegistryGuarantees.SweepExact` | prototypes/first-vertical-slice/observer/registry.ts:279-289 | The sweep that deletes while it scans removes exactly the sessions whose lease has run out and keeps the order of the rest. |
| `RegistryGuarantees.LeaseExact` | prototypes/first-vertical-slice/observer/registry.ts:193-289 | A sweep after an accepted report leaves the extension its session if and only if the 15000 ms are not over. |
| `RegistryGuarantees.Retired` | prototypes/first-vertical-slice/observer/registry.ts:127-276 | Being replaced, closed, disconnected or restarted makes a credential dead on every transport. |
| `RegistryGuarantees.SweptAway` | prototypes/first-vertical-slice/observer/registry.ts:279-289 | So does a lease that has run out, at the next sweep. |
| `RegistryGuarantees.DeadForever` | prototypes/first-vertical-slice/observer/registry.ts:318-325 | A credential that is dead once is dead in every later state, restarts included. |
| `RegistryGuarantees.DeadRefused` | prototypes/first-vertical-slice/observer/registry.ts:375-385 | Frames under a dead credential are refused and change nothing. |
| `Publisher.LiveCompanionProjection.PublishSnapshot` | prototypes/first-vertical-slice/observer/live-companion-projection.ts:94-111 | The consumer that drops revisions not above its last: its fields and the shell calls it makes, whether or not the shell answers. |
| `Publisher.LiveCompanionProjection.ClearObservedAgents` | prototypes/first-vertical-slice/observer/live-companion-projection.ts:114-125 | Clears the panel and leaves the accepted revision. |
| `Publisher.PublishFaithful` | prototypes/first-vertical-slice/observer/live-companion-projection.ts:94-111 | Over any registry run without restarts, after a publish that does not fail an open panel shows exactly the registry's current snapshot, so what is dropped is never missing; a failed publish changes nothing shown. |
| `Publisher.ClearFaithful` | prototypes/first-vertical-slice/observer/live-companion-projection.ts:114-125 | Clearing keeps that, and empties the panel. |
| `Publisher.AlwaysFaithful` | prototypes/first-vertical-slice/observer/live-companion-projection.ts:94-125 | However publications and clears are queued beside a registry run, and whichever of them fail, an open panel always shows a snapshot the registry had, at the accepted revision. |
| `Publisher.ReopensOnlyForNews` | prototypes/first-vertical-slice/observer/live-companion-projection.ts:94-125 | From a clear that went through until the next clear, the panel is open if and only if some publication since was delivered while the registry's log held an event past the revision accepted before the clear, or none had been accepted. |
| `Extension.NormalizedConfigValid` | prototypes/first-vertical-slice/observer/extension-adapter.ts:975-987 | Whatever the options, the retry limit is at most 32 and the delays satisfy 0 < initial <= maximum <= 60000 ms. |
| `Extension.DelaysGrow` | prototypes/first-vertical-slice/observer/extension-adapter.ts:328-342 | Consecutive delays start at the initial one, never fall, and are capped. |
| `Extension.EventIdsDiffer` | prototypes/first-vertical-slice/observer/extension-adapter.ts:240-244 | The hexadecimal counter ids of different events differ. |
| `Extension.ObserverExtension.ScheduleReconnect` | prototypes/first-vertical-slice/observer/extension-adapter.ts:328-364 | Schedules at most one retry at a time, counts it, and hands its delay to the timer. |
| `Extension.ObserverExtension.ConnectSession` | prototypes/first-vertical-slice/observer/extension-adapter.ts:703-732 | The synchronous start of a connection uses up one attempt and one sequence. |
| `Extension.ObserverExtension.Connected` | prototypes/first-vertical-slice/observer/extension-adapter.ts:741-806 | Makes the connection current and sends the registration with the numbers taken at its start. |
| `Extension.ObserverExtension.Lifecycle` | prototypes/first-vertical-slice/observer/extension-adapter.ts:440-451 | A lifecycle frame with the next sequence and event id, or a failed connection when the counters are spent. |
| `Extension.ObserverExtension.EndSession` | prototypes/first-vertical-slice/observer/extension-adapter.ts:855-881 | A registered session says so once, then nothing is scheduled or active any more. |
| `Extension.ObserverExtension.HandleFrame` | prototypes/first-vertical-slice/observer/extension-adapter.ts:629-676 | Looks only at answers on the current connection; accepts the matching registration, fails open on others. |
| `Protocol.NextKeepsInv` | prototypes/first-vertical-slice/observer/extension-adapter.ts:246-438 | Every step of extension, registry or network keeps: frames on the current connection are in sequence order and above the registry's marks, frames on older connections below, answers in flight to the current registration match it. |
| `Protocol.ReachableInv` | prototypes/first-vertical-slice/observer/extension-adapter.ts:246-438 | That holds in every reachable state, over any losses, retries, expiries, restarts and foreign traffic. |
| `Protocol.NeverStale` | prototypes/first-vertical-slice/observer/registry.ts:127-264 | The registry never answers a frame on the extension's current connection with stale_registration, invalid_sequence or message_id_conflict while revisions remain. |
| `Protocol.ReplyAccepted` | prototypes/first-vertical-slice/observer/extension-adapter.ts:629-645 | The extension always accepts the registry's reply to its current registration, and resets its retry count. |
| `Protocol.RetriesBounded` | prototypes/first-vertical-slice/observer/extension-adapter.ts:328-364 | In any stretch of a run without an accepted registration, the number of retries scheduled is exactly the growth of the counter, and at most the configured limit. |
| `Protocol.DelaysNeverFall` | prototypes/first-vertical-slice/observer/extension-adapter.ts:328-364 | In any such stretch the delays handed to the timer are those of successive retries: they never fall, and stay between the initial and the maximal delay. |
| `Coordinator.AdoptionCoordinator.AuthorizeProposal` | prototypes/first-vertical-slice/observer/adoption.ts:321-355 | Up to its first await: expiry, matching, replay and idempotence checks in order, then the authorization id is reserved. |
| `Coordinator.AdoptionCoordinator.AuthorizationVerified` | prototypes/first-vertical-slice/observer/adoption.ts:346-391 | From the authorizer's answer to the request: both deadlines are set from one clock reading. |
| `Coordinator.AdoptionCoordinator.RequestSent` | prototypes/first-vertical-slice/observer/adoption.ts:392-407 | A request that cannot be sent puts the proposal back; otherwise the authorization id is spent. |
| `Coordinator.AdoptionCoordinator.AcceptAcknowledgement` | prototypes/first-vertical-slice/observer/adoption.ts:410-444 | Up to its first await: exact retries go to delivery, anything that does not match an authorized live proposal on its own transport invalidates it or is refused. |
| `Coordinator.AdoptionCoordinator.ReconcileRead` | prototypes/first-vertical-slice/observer/adoption.ts:445-479 | One registry read outside the commit lock. |
| `Coordinator.AdoptionCoordinator.CommitRead` | prototypes/first-vertical-slice/observer/adoption.ts:526-577 | One registry read inside the commit lock; the last is followed by the deadline checks and at once by the Team Runner call. |
| `Coordinator.AdoptionCoordinator.RunnerReturned` | prototypes/first-vertical-slice/observer/adoption.ts:571-608 | A throw or a result that does not match invalidates the proposal; a matching result becomes a completion record and its delivery starts. |
| `Coordinator.AdoptionCoordinator.DeliveryReturned` | prototypes/first-vertical-slice/observer/adoption.ts:610-624 | Presentation before the committed frame, each marked only when it went through. |
| `Coordinator.AdoptionCoordinator.CreateRead` | prototypes/first-vertical-slice/observer/adoption.ts:251-319 | One step of a creation, with the eviction of an expired pending proposal. |
| `CoordinatorRuns.StepValid` | prototypes/first-vertical-slice/observer/adoption.ts:212-876 | Every transition of every operation, in any interleaving, keeps the coordinator's invariant over locks, pending tables, runner calls, commits and completions. |
| `CoordinatorRuns.RunnerOncePerProposal` | prototypes/first-vertical-slice/observer/adoption.ts:526-608 | In every interleaving, whatever the ports answer, the Team Runner is called at most once per proposal. |
| `CoordinatorRuns.RunnerOnlyWhenAgreed` | prototypes/first-vertical-slice/observer/adoption.ts:540-579 | Whenever the Team Runner is called, authorization and acknowledgement match in every bound field, the session record read inside the commit lock agrees with both, and the time is before creation plus 30000 ms and before authorization plus the advertised acknowledgementRemainingMs. |
| `CoordinatorHistory.CallHasHistory` | prototypes/first-vertical-slice/observer/adoption.ts:346-577 | Behind every Team Runner call stand, in this order in the run: a request for this proposal on a transport, an authorization of exactly this proposal, the authorizer's consent in the operation of its own session, an acknowledgement of it on that same transport before the deadline counted from the consent, the grant of the commit lock to that session, and the seven replies read under it: two equal session records, the connection current, the revision still the proposal's, the Team Goal local, the role not occupied and the session not managed. The last of them makes the call, on that record. From the acknowledgement on the session works on nothing else, and it holds the lock from the grant on. |
| `CoordinatorHistory.OneCommitPerRole` | prototypes/first-vertical-slice/observer/adoption.ts:571-608 | In every interleaving at most one commit succeeds per Team Goal and Role, when the registry reports a role free only if no earlier commit took it. |
| `CoordinatorHistory.PendingStory` | prototypes/first-vertical-slice/observer/adoption.ts:251-479 | The only ways a pending proposal can appear or gain an authorization or an acknowledgement. |
| `CoordinatorProgress.ReplyAdvances` | prototypes/first-vertical-slice/observer/adoption.ts:251-624 | Whatever the reply, the operation that waited for it ends or comes strictly closer to its end, so every operation ends after a bounded number of replies. |
| `CoordinatorProgress.NeverStuck` | prototypes/first-vertical-slice/observer/adoption.ts:856-876 | No deadlock: in every reachable state each operation in flight can move, or waits for the commit lock while its holder can move. |
| `CoordinatorProgress.ReservedInFlight` | prototypes/first-vertical-slice/observer/adoption.ts:340-406 | The reserved authorization ids are exactly those of operations in flight, one operation each; none leaks. |
| `CoordinatorProgress.RecentRemembered` | prototypes/first-vertical-slice/observer/adoption.ts:838-846 | The completion table always holds exactly the last 256 completed proposals, so only the oldest is ever forgotten. |
| `CoordinatorRuns.DeliveredOnce` | prototypes/first-vertical-slice/observer/adoption.ts:610-624 | Presentation and the committed frame each succeed at most once per proposal, the frame only after the presentation, and only for a proposal the runner was called on. |
| `CoordinatorRuns.CommittedForever` | prototypes/first-vertical-slice/observer/adoption.ts:829-846 | A completion keeps its result, proposal, acknowledgement and transport in every later state. |
| `CoordinatorRuns.NeverCalledAgain` | prototypes/first-vertical-slice/observer/adoption.ts:420-427 | After a commit the Team Runner is never called on that proposal again. |
| `CoordinatorRuns.RetryServed` | prototypes/first-vertical-slice/observer/adoption.ts:1018-1038 | An exact retry that finds its session idle is answered at once with the recorded result, or takes up the delivery that is still owed; it calls nobody and changes no completion. |
| `CoordinatorRuns.AnswersAlike` | prototypes/first-vertical-slice/observer/adoption.ts:610-624 | Every operation on one proposal that returns a result, the first acknowledgement as well as any retry, returns the same result. |
| `CoordinatorRuns.RetriesAnsweredAlike` | prototypes/first-vertical-slice/observer/adoption.ts:1018-1038 | Exact retries are recognized and meet the same result as long as the completion is remembered. |
| `CoordinatorRuns.EvictionNeverReopens` | prototypes/first-vertical-slice/observer/adoption.ts:838-846 | A committed proposal cannot be authorized again, and after eviction from the 256-entry table an acknowledgement of it changes nothing. |
| `CanonicalJson.SortSorts` | prototypes/first-vertical-slice/observer/adoption.ts:1112-1121 | Sorting the members of an object gives ascending keys and the same mapping. |
| `CanonicalJson.NormalDecides` | prototypes/first-vertical-slice/observer/adoption.ts:1112-1121 | Two values have the same sorted form if and only if they are equal with objects read as maps. |
| `CanonicalJson.QuotedUnique` | prototypes/first-vertical-slice/observer/adoption.ts:1112-1121 | String escaping (section 7 of RFC 8259) can be undone: a quoted string says what it holds and where it ends. |
| `CanonicalJson.PrintUnique` | prototypes/first-vertical-slice/observer/adoption.ts:1112-1121 | A printed value says which value it is and where it ends. |
| `CanonicalJson.CanonicalDecides` | prototypes/first-vertical-slice/observer/adoption.ts:1108-1121 | Two JSON values have the same canonical text if and only if they are equal with objects read as maps, whatever the key order. |
| `CanonicalJson.PrintedOnOneLine` | prototypes/first-vertical-slice/observer/contracts.ts:575-589 | Printed JSON never contains a raw newline or carriage return. |
| `AdoptionTables.AdoptionDatabase.CommitAdoptionRow` | prototypes/first-vertical-slice/manual/live-adoption-store.ts:386-461 | Inserts run, event and cursor exactly when none of the four UNIQUE keys is taken. |
| `AdoptionTables.AdoptionDatabase.CommitRetirementRow` | prototypes/first-vertical-slice/manual/live-retirement-store.ts:292-372 | Idempotent for the same revision, refused for another; otherwise row, counter, event and cursor. |
| `AdoptionTables.AdoptionDatabase.CommitReplacementRow` | prototypes/first-vertical-slice/manual/live-retirement-store.ts:374-484 | Refused unless predecessor, role, vacancy generation and occupancy all agree and the keys are free. |
| `AdoptionTables.AdoptionDatabase.PurgeRetiredRun` | prototypes/first-vertical-slice/manual/live-retirement-store.ts:505-544 | Deletes a retired run everywhere but keeps its binding as purged; refused while a replacement points at it. |
| `AdoptionTables.AdoptionDatabase.Transaction` | prototypes/first-vertical-slice/manual/live-adoption-store.ts:228-250 | All of the statements or none: a throw at any statement, a throw at the end, or a returned promise rolls everything back. |
| `RetirementGuarantees.HistoryValid` | prototypes/first-vertical-slice/manual/live-adoption-store.ts:80-199 | In every history the UNIQUE keys hold, each replacement's predecessor is a retired run of the same role, counters cover the retired rows, and event sequences increase strictly up to the cursor. |
| `RetirementGuarantees.HistoryTold` | prototypes/first-vertical-slice/manual/live-retirement-store.ts:334-372 | In every history the retained event logs tell the tables: exactly one event for each committed run, each retired run and each replacement, with the rows' own fields, and no others. |
| `RetirementGuarantees.RetiredForever` | prototypes/first-vertical-slice/manual/live-retirement-store.ts:204-241 | A retired binding stays retired in every later state, purges included. |
| `RetirementGuarantees.GenerationCountsRetirements` | prototypes/first-vertical-slice/manual/live-retirement-store.ts:243-258 | A role's vacancy generation is the number of retirements ever committed for it. |
| `RetirementGuarantees.StaleForever` | prototypes/first-vertical-slice/manual/live-retirement-store.ts:374-395 | A replacement whose generation is stale once fails in every later state and changes nothing. |
| `RetirementGuarantees.PredecessorRetained` | prototypes/first-vertical-slice/manual/live-retirement-store.ts:374-484 | Every replacement's predecessor is still retired history, in every history at all. |
| `RetirementGuarantees.OrderlyExact` | prototypes/first-vertical-slice/manual/live-retirement-store.ts:292-484 | For every operation on a consistent database in which each replacement follows the retired adopted run of its role: it stays so if and only if the operation is orderly, that is, unless a committed retirement names a run not committed in its role, or a role's retired adopted run is purged as if it were live. Commits are always orderly, even when they reuse a run identity. |
| `RetirementGuarantees.SucceedsPurge` | prototypes/first-vertical-slice/manual/live-adoption-store.ts:381-385 | For the purge of a committed run this means: if and only if the run is not the retired adopted run of its role; purging a retired replacement run is harmless. |
| `RetirementGuarantees.OneLiveRun` | prototypes/first-vertical-slice/manual/live-retirement-store.ts:292-484 | In every history of orderly operations at most one run per Team Goal and Role is live, adopted or replacement. |
| `RetirementGuarantees.PurgedPredecessorFreesRole` | prototypes/first-vertical-slice/manual/live-adoption-store.ts:381-385 | Deleting a role's retired adopted run as if it were live lets a second live run take the role. |
| `RetirementGuarantees.UncommittedRetirementFreesRole` | prototypes/first-vertical-slice/manual/live-retirement-store.ts:292-372 | So does retiring a run that was never committed: a replacement of it is live beside the adopted run. |
| `MemoryStore.InMemoryAdoptionStore.CommitAdoption` | prototypes/first-vertical-slice/observer/live-adoption-store.ts:271-319 | Refused for an occupied role, then for a managed binding; otherwise run, cursor and event. |
| `MemoryStore.InMemoryAdoptionStore.Transaction` | prototypes/first-vertical-slice/observer/live-adoption-store.ts:336-360 | A callback that throws or returns a promise changes nothing; otherwise all of it stands. |
| `MemoryStore.InMemoryAdoptionStore.ReadEventsAfter` | prototypes/first-vertical-slice/observer/live-adoption-store.ts:270-270 | The filter over the retained events. |
| `MemoryStore.MemoryApplyValid` | prototypes/first-vertical-slice/observer/live-adoption-store.ts:260-334 | Committed runs never share a role or a binding, and retained event sequences increase strictly up to the cursor. |
| `MemoryStore.EventsAfterExact` | prototypes/first-vertical-slice/observer/live-adoption-store.ts:270-270 | Reading after a cursor yields exactly the later events, in order. |
| `MemoryStore.StoresAgree` | prototypes/first-vertical-slice/manual/live-adoption-store.ts:381-461 | With fresh ids the table store accepts the same operations as the in-memory store and reaches the same state. |
| `MemoryStore.TransactionsAgree` | prototypes/first-vertical-slice/manual/live-adoption-store.ts:228-250 | So whole transactions commit or roll back together. |
| `MemoryStore.StoresDifferExactly` | prototypes/first-vertical-slice/manual/live-adoption-store.ts:386-461 | From agreeing states the two stores answer an operation differently if and only if it commits to a free role and binding under a proposal or run identity the tables already hold; then memory accepts it, the tables refuse it, and only then do they stop agreeing. |
| `MemoryStore.ReusedIdentityDiffers` | prototypes/first-vertical-slice/manual/live-adoption-store.ts:386-461 | Two commits on empty stores where that happens, with either identity reused. |
| `Text.PrefixBytes` | prototypes/first-vertical-slice/observer/contracts.ts:592-618 | A prefix of a text never takes more UTF-8 bytes, even one that cuts a surrogate pair. |
| `Ndjson.NdjsonDecoder.Push` | prototypes/first-vertical-slice/observer/contracts.ts:592-618 | The loop over newlines returns, keeps and counts exactly what draining the buffer line by line does, errors included. |
| `Ndjson.DrainSplit` | prototypes/first-vertical-slice/observer/contracts.ts:592-618 | A text that decodes whole also decodes in two parts, with the same frames and remainder and without tripping the buffer bound. |
| `Ndjson.ChunkingIndependent` | prototypes/first-vertical-slice/observer/contracts.ts:592-618 | For every split of a stream, pushing the pieces succeeds if and only if the whole decodes, and then frames and remainder are the same. |
| `Ndjson.RoundTrip` | prototypes/first-vertical-slice/observer/contracts.ts:575-618 | Decoding any chunking of encoded frames returns those frames and leaves nothing behind. |
| `ControlLines.ControlReader.Feed` | prototypes/first-vertical-slice/manual/live-observer-gateway.ts:243-278 | For one chunk: the marks of the lines it completes, and the exact rest, while at most 64 characters are held. |
| `ControlLines.ControlReader.Finish` | prototypes/first-vertical-slice/manual/live-observer-gateway.ts:279-290 | What is left at the end is a line of its own, or none. |
| `ControlLines.SplitAnywhere` | prototypes/first-vertical-slice/manual/live-observer-gateway.ts:243-290 | Splitting a text on newlines does not depend on where it is cut. |
| `ControlLines.ReadControls` | prototypes/first-vertical-slice/manual/live-observer-gateway.ts:243-290 | For every chunking the reader yields exactly what splitting the whole text and marking lines over 64 characters yields. |
| `ConsoleProjection.AgentConsoleProjection.AcceptEvent` | prototypes/first-vertical-slice/console/projection-core.ts:68-102 | Accepts exactly the next event with a new id, in any state; anything else leaves the gap state. |
| `ConsoleProjection.AgentConsoleProjection.Resnapshot` | prototypes/first-vertical-slice/console/projection-core.ts:104-131 | Accepts exactly a snapshot of the same baseline at the current cursor while reconnecting. |
| `ConsoleProjection.AgentConsoleProjection.Recover` | prototypes/first-vertical-slice/console/projection-core.ts:160-185 | Accepts exactly a snapshot of the same baseline that is not older, in the gap state. |
| `ProjectionAdapter.LiveProjectionAdapter.Receive` | prototypes/first-vertical-slice/console/live-projection-adapter.ts:222-302 | One frame: what it changes, when it is rejected, and when a recovery connection is opened. |
| `ProjectionAdapter.LiveProjectionAdapter.Closed` | prototypes/first-vertical-slice/console/live-projection-adapter.ts:319-331 | A close of the current connection enters the gap state and recovers unless it was recovering already. |
| `ProjectionAdapter.LiveProjectionAdapter.ConnectorResolves` | prototypes/first-vertical-slice/console/live-projection-adapter.ts:179-220 | A connector result of an older generation is dropped. |
| `ProjectionAdapter.SinkSeesHistory` | prototypes/first-vertical-slice/console/live-projection-adapter.ts:179-369 | Over any run against an append-only log, published cursors never decrease, every ready handoff is the runner's snapshot at that cursor, and each role keeps its Agent Run. |
| `ProjectionAdapter.SinkNeverBehind` | prototypes/first-vertical-slice/console/live-projection-adapter.ts:222-369 | Until the adapter stops, the sink's last handoff is the projection's current one in every reachable state, except while a resumed connection owes the snapshot that confirms its page. |
| `ProjectionAdapter.SupersededHasNoEffect` | prototypes/first-vertical-slice/console/live-projection-adapter.ts:222-230 | Frames and closes of a superseded connection change nothing, then or later. |
| `ProjectionAdapter.ReplacedIsSuperseded` | prototypes/first-vertical-slice/console/live-projection-adapter.ts:333-369 | A connection that stops being current, for whatever reason, is superseded for good. |
| `ProjectionAdapter.LateFailureExact` | prototypes/first-vertical-slice/console/live-projection-adapter.ts:351-358 | The failure of a superseded connect attempt changes the projection or reaches the sink if and only if the attempt was detached and there is a baseline; then the projection is in the gap state and nothing is done to leave it: connection and generation stay and no attempt is added. |
| `ProjectionAdapter.LateConnectFailureGaps` | prototypes/first-vertical-slice/console/live-projection-adapter.ts:179-369 | A run from the start in which a ready projection on a live connection is put into the gap state so, under that same connection. |

## Left out

- Installation.CompanionInstallation.Uninstall: once the first file has been removed, a failure ends Incomplete with nothing said about the files that recovery writes again, because they get new inodes and so never equal the prior state.
- Installation.CompanionInstallation.Execute: faults inside staging and inside the cleanup of the stage are not injected, because the program reports those as incomplete.
- Installation.CompanionInstallation.Execute: symbolic links, foreign owners and outside changes during an operation are not modelled, so the identity checks before each step are proved to succeed rather than shown to catch anything.
- Installation.CompanionInstallation.RemoveTree: reading a tree back into a capture is the subtree of the node map at once, not the recursive directory walk.
- RetirementGuarantees.OneLiveRun: an operation that is not orderly is shown to upset the order of succession in every state, but that two runs do become live afterwards is shown by one history for each kind of operation.
- CoordinatorHistory.OneCommitPerRole: rests on the registry reporting a role free only if no earlier commit took it (`CoordinatorHistory.Truthful`); registry ports that are optional and absent count as ports that always answer favourably, and then nothing is claimed per role.
- CoordinatorRuns.AnswersAlike: a failed delivery is answered with an error each time and may be retried; retries after eviction are refused.
- Coordinator.AdoptionCoordinator.AcceptAcknowledgement: operations on a proposal id before it is issued are refused like those on any unknown id, and the acknowledged phase is merged with the reconciled one, as no await lies between them.
- Coordinator restart is taken only when no operation is in flight; phase event logs are left out.
- Locks are mutual exclusion with any order among those that wait; the program's waiting order is one of those.
- Extension.ObserverExtension.HandleFrame: adoption and managed recovery frames are left out, as are timers' handles, status text and heartbeat interval checks, which the registry's constants always satisfy.
- Ndjson.RoundTrip: rests on JSON.stringify and JSON.parse being inverse and printing one line, stated as `Ndjson.Faithful`; envelope validation is part of the parse parameter.
- CanonicalJson.CanonicalDecides: numbers are integers printed in digits; fractions, exponents, negative zero and the exponent form JavaScript uses from 1e21 on are left out.
- SHA-256 digests are represented by what they are digests of.
- Envelope and body validators, exact-key checks and plan fields: each is one branch over its own input.
- Persistence of the registry revision across process restarts: the loaded value is the parameter of Reconstruct; a save that fails is left out.
- SQLite itself, migration of old tables and timestamps of commits: only rows, keys, counters and rollback are modelled.
- Nested in-memory transactions, and the store snapshots returned to callers.
- ProjectionAdapter: the last fault text, intent callbacks, and a hello that fails to send once the connection is set are left out; ConsoleProjection clearing is not reached through the adapter.
- Sockets, processes, terminals, QML sources, fakes used only by acceptance runs, and the extensions under manual/ other than the files cited above.
- observer/live-adoption-runner.ts and observer/retirement-store.ts are not part of this model.
