# Fern, verified

A Dafny model of the parts of fern that promise something over whole runs, and
proofs of those promises. Fern gives coding agents environments on a node: a
btrfs workspace with snapshots, a box its commands run in, Claude processes
that sleep when idle, and encrypted backups.

`dafny verify dfyconfig.toml` checks everything.

## What is proved

**The store** (`StorePool`, `StoreFields`, `Store`, `StoreCreate`, `StoreRuns`). The disk and
the index are one value, every operation is a sequence of atomic steps, and a
budget of steps runs out anywhere, also inside Reconcile. The specification is
`Reconciled`, the pool a completed Reconcile leaves; `StoreFields` says what that
is in the fields of the pool alone. Steps are shown to leave it
as it was, at that time and whenever later; restores, adopts and deletes are
whole or undone after any number of Reconciles that are themselves cut off, at
times of their own, and made again they complete. Nothing the index has lost
is ever touched.

**Golden snapshots** (`Trees`, `Golden`). The overlay's walk equals a
declarative merge, and it is said exactly what a strip removes.

**The hibernator** (`Stream`, `Conversation`, `Hibernate`). The tracker is a class
tied to a state machine over a conversation. `Run` is shown, for every schedule
of lines, signals, output, exits and ticks, to conserve the SDK's lines, to
give each Claude the settings of those before it, to hide exactly the answers
the SDK didn't ask for, and to stop a Claude only with nothing under way.

**Backups** (`Backup`, `Backer`, `Restore`). Every call may fail, may have taken
effect without saying so, and the node changes in between. The manifest in the
bucket can be restored at every moment, and a backup that doesn't fail holds
each workspace as it was at a moment of the run.

**The encrypted stream** (`Crypt`, `CryptStreams`). Round trip and integrity for
all lengths, and the readers, with their two swapped buffers, for all ways of
reading.

**The actors** (`ActorState`, `ActorHistory`, `Actor`, `ActorGroup`). One actor as
a class with its clocks, leases, counts and crash limit, equal to what its
history says; all of them as a transition system of callers, actors, nested
calls and watchers, without overlap, deadlock or a lost call.

**Names** (`Names`, `Forks`). Of environments, snapshots, boxes and forks.

## What turned out otherwise

- An unfinished delete whose marker names a worktree that another environment
  got since lets Reconcile, or the delete made again, take that environment's
  workspace. `WorkspaceKept` and `ClearedKeeps` say exactly when;
  `DeleteTakesWorkspace` gets there with the operations, from every pool.
- A restore to a pre-restore snapshot over a day old can't be made again if it
  was cut off: the restore keeps that snapshot, the Reconcile after it prunes it.
  `RestoreSurvives` says exactly when, `UndoIsLost` shows one.
- A backup that stopped can leave a manifest with a deleted environment and a
  new one at the same path, and a restore then puts one inside the other.
  `RestoreAll` says exactly when; `StoppedShares` gets there.
- A strip follows a folder that became a symlink: `StripsOther` says exactly when,
  `LinkedFolderStripsOther` shows one. It removes an empty folder at a listed
  path, though the code's comment leaves folders to the build:
  `BuildOutputKept` says which paths stay, `EmptyFolderStripped` shows one.
- Cancelling a replayed request before its answer lets the tracker call a Claude
  idle that still owes it: `StopHides` says exactly when, `CancelOfAnswered` shows
  one.
- Resuming an empty command line twice is not resuming it once (`ResumeTwice`).
- `id LIKE 'pre-restore-%'` ignores the case of letters in SQLite, so a
  snapshot a person called Pre-Restore-x is pruned too (`LikeIgnoresCase`,
  `NamedByAPerson`).
- A chain has at most maxChain sends, the full one included, where the comment
  says that so many incremental ones come after the full one (`FullSends`).

## What is taken as given

- An atomic step is one ioctl, exchange rename, statement or transaction, or one
  file written or removed; removing a directory with all in it is one step.
  Writing a marker is two: the file is made or emptied, then written.
- The index's tables are keyed as its queries need, deleting an environment's
  row drops its snapshot rows, and a workspace belongs to one environment.
- The box is stopped during a restore, and pre-restore names are new.
- A golden snapshot isn't a pre-restore one.
- Backups of one node don't overlap, only they make snapshots with their
  prefix, the clock that names them moves on, an environment's ID always has the
  same workspace path, and a change to a workspace moves its btrfs generation
  past the last committed one.
- The AEAD is ideal: only what was sealed opens. A stream's random prefix is its own.
- An actor's clock doesn't go back.

## Model

| member | source | states |
|---|---|---|
| `StoreRuns.RunThenReconcile` | internal/store/recover.go:52-180 | Any run of operations, each cut off after any atomic step and with writes of agents in between, then a completed Reconcile: rows equal subvolumes, no marker, live.new or adopt.new, a live/ wherever the row says so; exactly the directories without row and marker that have a live/, a snapshot or anything of Claude's before the run are reported, and kept as they were throughout; a second Reconcile changes nothing |
| `StoreRuns.Do` | internal/store/store.go:176-182 | One operation stopped anywhere keeps the invariant, and every directory the index had lost exactly as it was |
| `StoreRuns.Recover` | internal/store/recover.go:46-107 | Any number of Reconciles, each at its own time and cut off after any step, then one that completes: it leaves what it would have left of the pool before all of them, but for the times of snapshots found without a row and, over a day after the first, pre-restore snapshots found so; every snapshot with a row stays with its time and contents, but exactly the pre-restore ones over a day old at the last |
| `StoreRuns.DeleteRecovered` | internal/store/recover.go:22-45 | A delete cut off anywhere, then any cut-off Reconciles and a completed one: what a Reconcile leaves of the pool before, or of the pool without the environment, nothing in between |
| `StoreRuns.RestoreRecovered` | internal/store/snapshot.go:104-153 | A restore cut off anywhere, then any cut-off Reconciles and a completed one: the workspace is the old tree or the snapshot with, for a day, the old tree an indexed snapshot; the same restore can be made if and only if it wasn't to a pre-restore snapshot over a day old, and made again it completes; given that no unfinished delete of another names the workspace (WorkspaceKept) |
| `StoreRuns.AdoptAgain` | internal/store/create.go:32-133 | An adopting create, golden or not, cut off anywhere, then any cut-off Reconciles and a completed one, then the same create: it succeeds, and the workspace is a subvolume with every file and symlink of the worktree; given that no unfinished delete of another names it (WorkspaceKept) |
| `StoreRuns.ReadoptAgain` | internal/store/create.go:165-186 | The same for a readopt; and, within a day or but for pre-restore ones, its snapshots are those a Reconcile would have left without it |
| `StoreRuns.DeleteTakesWorkspace` | internal/store/recover.go:22-45 | In every pool: a delete that stops after its row went, a create of another environment at that worktree, which succeeds, and a Reconcile leave the new environment without its workspace |
| `StoreRuns.BuildSource` | internal/store/golden.go:35-66 | Stopped anywhere it keeps the invariant and touches one environment; done, the list is written and live/ is the snapshot's subvolume; it fails only for an unknown builder, a worktree or a missing snapshot, or stopped |
| `Store.Store.Commit` | internal/store/store.go:177-182 | An atomic step happens whole exactly when the budget isn't spent, costs one, and otherwise fails and changes nothing |
| `Store.Store.Reconcile` | internal/store/recover.go:52-107 | Completed, it does exactly what Reconciles says of each field of each environment, directory and worktree, and reports exactly what no row and no marker accounts for; stopped anywhere, one at the same time still leaves that, and one at any later time leaves what it would have left of the pool before but for the times of snapshots found without a row (over a day later, but for pre-restore snapshots found so) |
| `StoreFields.ReconciledFields` | internal/store/recover.go:46-247 | The declarative pool, in fields: an indexed environment loses its marker, live.new, adopt.new and expired snapshots, gets a live/ if that is missing, and keeps all else; another directory stays exactly if it is no environment's or holds anything without a marker; a worktree goes exactly if such a directory's marker names it and it is a subvolume |
| `StoreFields.LostIsStray` | internal/store/recover.go:208-227 | holdsData, told apart: a live/, any entry of snaps/ or any entry of Claude's folder |
| `StoreFields.StraysKept` | internal/store/recover.go:186-227 | What every operation keeps: no directory with data but without row and marker is touched, and none comes to be |
| `Store.Store.SettleEnv` | internal/store/recover.go:74-103 | An indexed environment is settled, touching nothing else; stopped anywhere, a Reconcile at any later time makes of it what it would have made before, with the same two exceptions |
| `Store.Store.ReconcileOne` | internal/store/recover.go:58-106 | One directory: lost and reported, cleared or settled, and no other environment is touched |
| `Store.Store.ReconcileSnapshots` | internal/store/recover.go:114-180 | Afterwards the snapshot rows are the subvolumes on disk, and only that row differs |
| `Store.Differences` | internal/store/recover.go:114-159 | The missing rows are the subvolumes without one, the stale rows those without a subvolume |
| `Store.Store.ClearRestore` | internal/store/recover.go:75-87 | What a restore, adopt or marker left goes, in steps a later Reconcile looks past |
| `Store.Store.EnsureLive` | internal/store/recover.go:91-100 | A row that says live/ gets one, and a live/ that is there is left alone |
| `Store.Store.ClearLeftovers` | internal/store/recover.go:186-206 | Refuses exactly the directories that hold data without a marker, leaving them untouched; otherwise the directory and the worktree its marker names go, and plain worktrees stay |
| `Store.ClearedKeeps` | internal/store/recover.go:186-247 | Clearing leftovers, in Reconcile or a repeated Delete or Create, takes a worktree if and only if the marker names it and it is a subvolume |
| `Store.Store.RemoveDisk` | internal/store/recover.go:231-247 | The directory goes last: stopped before that it is still recognised as a leftover with the same marker |
| `Store.Store.MarkIndexed` | internal/store/recover.go:253-258 | Writing the marker of an indexed environment changes nothing a Reconcile leaves, at any later time |
| `Store.Store.Delete` | internal/store/recover.go:22-45 | Stopped anywhere, what a Reconcile at any later time leaves is that of the pool before or of the pool without the environment; done, exactly its row, its directory and the subvolume its row or marker names are gone; one the index has lost is refused and left as it is |
| `Store.Store.DeleteSnapshot` | internal/store/snapshot.go:63-80 | The pool is one of: unchanged, without the subvolume, without the row too, each written out; unknown IDs are refused without a change |
| `Store.Store.Snapshot` | internal/store/snapshot.go:20-35 | On success the snapshot is there with a row; unknown or invalid IDs and a full pool are refused |
| `Store.Store.TakeSnapshot` | internal/store/snapshot.go:37-58 | A snapshot on disk is kept with its row; otherwise it holds the workspace as it was; every stop is one of three pools |
| `Store.Store.Restore` | internal/store/snapshot.go:104-153 | A restore that can be made succeeds unless stopped, and then the workspace is the snapshot, the old one is an indexed pre-restore snapshot of that time, no pre-restore snapshot over a day old is left but the one restored, and all else of the environment is kept; every stop is a phase RestoreSurvives covers |
| `Store.Store.RestoreSwap` | internal/store/snapshot.go:140-153 | The swap is made only with the old workspace kept and indexed |
| `Store.Store.PrunePreRestores` | internal/store/snapshot.go:165-178 | No expired pre-restore row is left but the one to keep, and a Reconcile at any later time makes the same of every stop |
| `StorePool.RestoreSurvives` | internal/store/snapshot.go:121-153 | A restore cut off at any step, then reconciled: the workspace is the old tree or the snapshot; if the snapshot, for a day an indexed pre-restore snapshot holds the old tree; the same restore can be made again if and only if it was not to a pre-restore snapshot over a day old |
| `StorePool.UndoIsLost` | internal/store/snapshot.go:121-178 | A concrete pool: an undo to a pre-restore snapshot over a day old, cut off at once and reconciled, can't be made again, though Restore keeps that snapshot from its own pruning |
| `StorePool.SnapshotKept` | internal/store/snapshot.go:155-178 | A snapshot is left by a Reconcile if and only if it is on disk and not a pre-restore one whose row is over a day old; it has the time of its row, or the Reconcile's |
| `StorePool.LikeIgnoresCase` | internal/store/snapshot.go:155-178 | The names pruned that lack the pre-restore prefix are exactly those that have it but for an upper-case letter |
| `StorePool.NamedByAPerson` | internal/store/snapshot.go:155-178 | A snapshot called Pre-Restore-x is a valid one, lacks the prefix, and is pruned after a day |
| `StorePool.ReconciledIsClean` | internal/store/recover.go:52-107 | The declarative result meets what Reconcile promises and keeps what was lost |
| `StorePool.ReconcileTwice` | internal/store/recover.go:46-107 | Reconciling a reconciled pool at the same time changes nothing |
| `StorePool.SettleTwice` | internal/store/recover.go:74-103 | Settling a settled environment changes nothing |
| `StorePool.WorkspaceKept` | internal/store/recover.go:186-247 | Reconcile keeps an indexed environment's worktree workspace if and only if no unfinished delete of another names it |
| `StoreCreate.Create` | internal/store/create.go:32-133 | Not stopped, it succeeds if and only if none of the source's refusals applies: an invalid ID, another workspace than the row's, a full pool, data the index lost, a workspace that is another's or a file, a golden or fork source that isn't there. On success its row and directory are written out, and its workspace is the very subvolume of the fork's source, empty, or the worktree merged over the golden snapshot's files, with the seed's over them; stopped or not, what was at the path is kept, subvolume or plain, but what the environment's own unfinished delete names |
| `StoreCreate.SourceIsTree` | internal/store/create.go:135-159 | What a copy is made of, in places: the environment's live/ or worktree, or the snapshot with a row, and it must be a subvolume |
| `StoreCreate.CreateNew` | internal/store/create.go:60-133 | The same for an environment without a row: every stop is a phase after which it is whole or a leftover, and it fails exactly if refused or stopped |
| `StoreCreate.MakeWorkspace` | internal/store/create.go:216-246 | A missing workspace is made, a plain one adopted, a subvolume left alone, a file refused; it fails exactly if that or something at adopt.new is in the way, or stopped |
| `StoreCreate.Adopt` | internal/store/create.go:254-289 | Adopting swaps in a subvolume holding the worktree (over the golden snapshot if there is one); stopped anywhere the work is at its path |
| `StoreCreate.AdoptedHolds` | internal/store/create.go:254-289 | What is swapped in holds every regular file and symlink of the worktree, golden or not |
| `StoreCreate.AdoptReconciled` | internal/store/create.go:60-133 | An adopting create cut off at any step, then reconciled: the worktree's files and symlinks are at their paths and the environment is whole or gone |
| `StoreCreate.StillNotRefused` | internal/store/create.go:60-133 | After that, and any cut-off Reconciles, nothing refuses the create that didn't before: no other environment has its path, and its golden snapshot is there |
| `StoreCreate.Readopt` | internal/store/create.go:165-186 | On success an own workspace or a subvolume is left alone, a missing worktree is made empty, a plain one copied, and its git folder recorded; stopped anywhere its work is at its path |
| `StoreCreate.ReadoptSurvives` | internal/store/create.go:165-186 | A readopt cut off at any step, then reconciled: the work is at its path, the snapshots are as a Reconcile would have left them, and nothing is in the way of another |
| `StoreCreate.FillWorkspace` | internal/store/create.go:87-159 | A fork's workspace is the snapshot's subvolume or the source workspace's; without a fork it is made as MakeWorkspace says |
| `Golden.Overlay` | internal/store/golden.go:155-211 | A parents-first walk that lays down entries one by one computes the declarative merge, and never lacks a parent folder |
| `Golden.PutMerges` | internal/store/golden.go:166-210 | One entry laid down is one step of the declarative merge |
| `Trees.MergeHoldsWork` | internal/store/golden.go:150-155 | The merge holds every file and symlink of the worktree |
| `Trees.MergeWellFormed` | internal/store/golden.go:150-211 | The merge of two trees is a tree |
| `Golden.ListSource` | internal/store/golden.go:70-100 | The list holds exactly what is no directory, once each |
| `Golden.StripSource` | internal/store/golden.go:104-132 | The loop computes Strip: the listed paths removed in turn, stopping at the first error |
| `Golden.StripOneExact` | internal/store/golden.go:121-130 | With no symlink on its way, exactly the path itself is removed, if it is no folder or an empty one, and it is an error exactly if a file stands on its way |
| `Golden.StripExact` | internal/store/golden.go:104-132 | When no folder on a listed path is a symlink: after a strip every path not listed is unchanged, nothing is added and no listed path is a file or symlink; it fails if and only if a file not removed before stands where a listed path needs a folder |
| `Golden.BuildOutputKept` | internal/store/golden.go:70-132 | A list, a build and a strip: all the build made elsewhere is left as it is, and a listed path is left if and only if the build made it a folder that isn't empty |
| `Golden.EmptyFolderStripped` | internal/store/golden.go:104-132 | A concrete build whose empty folder in a file's place is stripped |
| `Golden.StripsOther` | internal/store/golden.go:121-130 | One step removes a path other than the one listed if and only if a folder on the way is a symlink now and leads to a folder with something removable by that name |
| `Golden.LinkedFolderStripsOther` | internal/store/golden.go:121-130 | A concrete tree in which a folder that became a symlink makes the strip remove a file not listed |
| `Hibernate.Run` | internal/hibernate/hibernate.go:85-209 | Whatever comes in whatever order: the lines handed to the Claudes one after another, then those waiting, are the lines read, in order, none lost or twice; lines are left waiting at the end only if a signal ended a Claude being stopped; the SDK saw exactly the shown lines; a Claude is stopped only at rest; every Claude's settings are those of all lines handed over |
| `Hibernate.Hibernator.OnStdin` | internal/hibernate/hibernate.go:105-125 | A line is handed over or waits; the end of stdin ends Run, closes Claude's stdin, or waits for a stop |
| `Hibernate.Hibernator.OnSignal` | internal/hibernate/hibernate.go:126-132 | A signal is passed on and makes the exit Run's; without a Claude Run returns the last code |
| `Hibernate.Hibernator.OnExit` | internal/hibernate/hibernate.go:133-155 | An exit is Run's unless Claude was being stopped; then the waiting lines start the next Claude, and a cut-off stop counts as SIGTERM |
| `Hibernate.Hibernator.OnStopped` | internal/hibernate/hibernate.go:138-155 | After a stop the waiting lines start the next Claude, or Run ends with 0 if stdin has |
| `Hibernate.Hibernator.OnTick` | internal/hibernate/hibernate.go:156-168 | SIGTERM goes to a Claude at rest for the idle time (AtRest, of the lines written both ways) and no other; a stop that takes too long is cut off |
| `Hibernate.Hibernator.OnOutput` | internal/hibernate/hibernate.go:174-190 | Output changes neither the lines kept nor the conversation's agreement, however it is cut |
| `Hibernate.Hibernator.SendWaiting` | internal/hibernate/hibernate.go:142-148 | The waiting lines all go to the next Claude, in order |
| `Hibernate.Hibernator.Start` | internal/hibernate/hibernate.go:193-203 | The next Claude's command line is the first one's without its session flags and their values, and the last session; it is first given the setup |
| `Hibernate.Hibernator.Send` | internal/hibernate/hibernate.go:206-209 | The tracker and Claude get the same line |
| `Hibernate.LineWriter.Write` | internal/hibernate/hibernate.go:242-259 | The shown ended lines are passed on whole and the rest is kept |
| `Hibernate.LineWriter.Flush` | internal/hibernate/hibernate.go:262-269 | An unended line is passed on at the end |
| `Hibernate.LinesOfPieces` | internal/hibernate/hibernate.go:242-259 | However output is cut into writes, its lines are the same |
| `Hibernate.LinesAre` | internal/hibernate/hibernate.go:242-269 | The lines and the rest are the output, cut at every newline |
| `Stream.Tracker.In` | internal/hibernate/stream.go:75-99 | The tracker's fields follow a line to Claude |
| `Stream.Tracker.Out` | internal/hibernate/stream.go:103-140 | The tracker's fields follow a line from Claude, and an answer to a replayed request is hidden |
| `Stream.Tracker.IdleSince` | internal/hibernate/stream.go:145-151 | Idle if and only if a session is known and nothing is under way |
| `Conversation.TracksAll` | internal/hibernate/stream.go:75-177 | Over every conversation, for a turn, a background task, the number of them, a question of Claude's, a request of the SDK's and the session: the tracker has it under way if and only if a line began it and none since has ended it |
| `Conversation.IdleIsAtRest` | internal/hibernate/stream.go:145-151 | Idle if and only if an init gave a session and nothing is under way: every user line has its result, every task_started its task_notification, the last background_tasks_changed had none, every question and every request its answer or cancel, all since the last restart |
| `Conversation.StoppedAtRest` | internal/hibernate/hibernate.go:156-168 | In every conversation the hibernator can have, each stop is at rest |
| `Conversation.SessionIsLast` | internal/hibernate/stream.go:115-116 | The session is that of the last init |
| `Stream.Tracker.Restart` | internal/hibernate/stream.go:156-177 | The setup lines in the fixed order, their requests expected and hidden |
| `Stream.CollectSetup` | internal/hibernate/stream.go:163-176 | The loop collects what is kept of each subtype to replay, in order, and the request IDs |
| `Stream.ReplayOrder` | internal/hibernate/stream.go:17-34 | The eleven settings, in the order a restarted Claude gets them |
| `Conversation.ReplaysAre` | internal/hibernate/stream.go:156-177 | A restarted Claude is given again exactly the newest request of each setting |
| `Stream.ResumeArgs` | internal/hibernate/stream.go:193-207 | The loop drops every session flag with its value and resumes the session |
| `Stream.ResumedAre` | internal/hibernate/stream.go:179-207 | Argument by argument: all but the session flags, each alone or with =, and the values that follow those that take one, and then --resume |
| `Stream.ResumeTwice` | internal/hibernate/stream.go:193-207 | Resuming twice is resuming once with the last session, if and only if there is a program name |
| `Conversation.SameSettings` | internal/hibernate/stream.go:75-177 | Over every conversation, what is replayed, what the running Claude was given and all lines handed over set the same things |
| `Conversation.BusyUntilResult` | internal/hibernate/stream.go:75-140 | Busy if and only if a user line has had no result after it |
| `Conversation.StaysInStep` | internal/hibernate/stream.go:75-177 | Over every conversation the tracker's sets are the requests the SDK waits for and the replays left to hide |
| `Conversation.StopLosesNothing` | internal/hibernate/stream.go:145-177 | With request IDs used once and no cancel of an answered request, a Claude is stopped only when no answer is waited for, none is left to hide and a result followed the last user line |
| `Conversation.AbandonedExact` | internal/hibernate/stream.go:75-177 | Over every conversation, whatever the SDK does: the answers left to hide are those no Claude has given since the replay, and those of them nothing waits for are exactly the requests cancelled while unanswered |
| `Conversation.StopHides` | internal/hibernate/stream.go:145-177 | A Claude is stopped with no answer left to hide if and only if no such request is left |
| `Conversation.AnswersShown` | internal/hibernate/stream.go:128-140 | The SDK sees an answer if and only if it is to no replayed request, and so each one it waits for |
| `Conversation.HiddenAre` | internal/hibernate/stream.go:128-140 | Whatever the SDK does, a line is kept from it if and only if it answers a replayed request that no Claude has answered since |
| `Conversation.CancelOfAnswered` | internal/hibernate/stream.go:92-93 | A concrete conversation: cancelling an answered request lets a Claude be stopped with a replay unanswered |
| `Backer.Backer.Once` | internal/backup/backup.go:163-205 | Wherever it stops or fails, the manifest in the bucket names only objects that are there and chains that can be received, each backup in it is the one before or of a moment of the run, and none is missing but of an environment that wasn't listed or is a golden builder; without failure it holds exactly the environments listed whose name doesn't begin with golden-, each as it was at a moment of the run, and the bucket holds nothing else; if nothing goes wrong it doesn't fail |
| `Backer.Backer.SendAll` | internal/backup/backup.go:174-189 | Each environment that was sent is saved as it was at a moment of the run; if nothing goes wrong all are |
| `Backer.Backer.SendEnv` | internal/backup/backup.go:174-189 | One environment sent and saved, the others in the manifest as they were |
| `Backer.Backer.Finish` | internal/backup/backup.go:190-205 | Environments that are gone are forgotten, and a sweep follows the save |
| `Backer.Backer.BackUp` | internal/backup/backup.go:209-274 | What is returned restores to what the workspace held at a moment of the call, unchanged or sent, and the chain is extended exactly when it has fewer than maxChain sends and its last snapshot was listed |
| `Backer.FullSends` | internal/backup/backup.go:123-240 | A send is full if and only if there was no chain, its snapshot was gone, or the chain had maxChain sends, the full one among them |
| `Backer.Backer.ClearSnapshots` | internal/backup/backup.go:217-240 | Of the backup snapshots only the parent is left, and it is found exactly if it was listed |
| `Backer.Backer.SendTaken` | internal/backup/backup.go:246-274 | The new chain receives to the snapshot taken |
| `Backer.Backer.SendSnapshot` | internal/backup/backup.go:278-304 | A success stores the full or incremental stream; a missing snapshot or parent is an error |
| `Backer.Backer.Put` | internal/backup/backup.go:307-331 | An upload that fails leaves the object or not, and touches no other |
| `Backer.Backer.PutState` | internal/backup/backup.go:335-362 | The state's key names an object that is there |
| `Backer.Backer.Save` | internal/backup/backup.go:413-424 | The manifest is the new one or the old one, whole |
| `Backer.Backer.Sweep` | internal/backup/backup.go:366-384 | Every object the manifest names stays; on success nothing else does |
| `Backer.AllThere` | internal/backup/backup.go:366-411 | Every object a manifest in order names is in the bucket |
| `Backup.AppliedIsSent` | internal/backup/backup.go:278-304 | Applying what changed since the parent to the parent gives what was sent |
| `Backup.ChainGrows` | internal/backup/backup.go:258-266 | A full send starts a chain, an incremental one from its last snapshot extends it, and it receives to what was sent; chains stay within maxChain |
| `Backup.SinceExtends` | internal/backup/backup.go:258-266 | Receiving the extended chain in order gives the new snapshot |
| `Backup.SweptKeeps` | internal/backup/backup.go:366-384 | Deleting an object a manifest doesn't name changes nothing it restores to |
| `Backup.KeptAre` | internal/backup/backup.go:366-384 | The objects kept are the manifest, its state and the sends of its chains |
| `Backup.SnappedHolds` | internal/backup/backup.go:242-257 | After a snapshot, an unchanged generation means unchanged contents |
| `Restore.RestoreAll` | internal/backup/state.go:194-240 | From any manifest a backup leaves, a restore succeeds if and only if the pool is empty and a backup has finished; every workspace is right if and only if no two environments share a path |
| `Restore.ReceiveChain` | internal/backup/state.go:205-214 | The loop receives the chain in order, or fails at the first object that can't be |
| `Restore.RightIffDistinct` | internal/backup/state.go:205-228 | Workspaces are restored right exactly when their paths are distinct |
| `Restore.OnceThenRestore` | internal/backup/state.go:194-240 | A backup that doesn't fail, restored, gives every environment listed but golden builders the workspace it had at a moment of the run |
| `Restore.StoppedShares` | internal/backup/backup.go:174-194 | For every bucket with an environment that is gone and one at its path now: a run that sends the environments, all going well, and stops leaves a manifest with both, and a restore of it is not right |
| `Restore.FinishedIsDistinct` | internal/backup/backup.go:190-203 | A backup that finished left no two environments at one path |
| `Crypt.RoundTrip` | internal/backup/crypt.go:119-195 | Decrypt of Encrypt is the identity for every plaintext |
| `Crypt.EncryptedLength` | internal/backup/crypt.go:119-143 | A stream is 7 bytes, the data, and 16 for each 65536 of it begun, or for one chunk |
| `Crypt.Integrity` | internal/backup/crypt.go:154-195 | With an ideal AEAD and streams of up to 2^32 chunks: what any bytes decrypt to is a prefix of what was encrypted with their prefix, and the end is clean if and only if they are the very stream sealed |
| `Crypt.OpensAsItself` | internal/backup/crypt.go:50-58 | A piece opens only at its own place, and as last only if it was |
| `Crypt.NonceShared` | internal/backup/crypt.go:50-58 | Nonces are equal exactly when prefix, number as a uint32 and last mark are |
| `Crypt.NonceBytes` | internal/backup/crypt.go:50-58 | The nonce's bytes: the prefix, the number with its highest byte first, the last mark |
| `Crypt.NoncesDistinct` | internal/backup/crypt.go:50-58 | The nonces of a stream are distinct if and only if it has at most 2^32 + 1 chunks |
| `Crypt.PiecesOfCut` | internal/backup/crypt.go:60-98 | Sealed chunks put together are cut again where they were |
| `CryptStreams.Chunks.Next` | internal/backup/crypt.go:75-98 | With two buffers and a look-ahead, the pieces handed out are those of the data, the last one known as last |
| `CryptStreams.Source.Full` | internal/backup/crypt.go:101-107 | As much as there is, and an error only for something else than an end |
| `CryptStreams.Sealer.Read` | internal/backup/crypt.go:131-143 | Whatever the read sizes, the bytes given are the stream's in order, and the end comes when all are |
| `CryptStreams.Opener.Read` | internal/backup/crypt.go:166-195 | Whatever the read sizes, the bytes given are a prefix of what the stream decrypts to, and the end or error is the stream's |
| `CryptStreams.EncryptAll` | internal/backup/crypt.go:119-143 | Reading to the end gives the stream |
| `CryptStreams.DecryptAll` | internal/backup/crypt.go:158-195 | Reading to the end gives the plaintext and how it ended |
| `CryptStreams.ThereAndBack` | internal/backup/crypt.go:119-195 | Encrypted and decrypted through any portions and read sizes, the data is the same |
| `ActorGroup.RunOk` | internal/actor/actor.go:184-240 | In every interleaving, finds served after the context is done among them, at most one actor per box hasn't ended and it is the one in the map; changes of a box never overlap; every message is taken at most once and answered if taken; a call ends unanswered only if cancelled, Run has returned, or it is a command's end whose actor has ended |
| `ActorGroup.CallsAreAnswered` | internal/actor/actor.go:296-321 | In every run from the start, a call nobody cancels ends, while Run runs, only answered, with its change made once and after every call made in it |
| `ActorGroup.EndsStep` | internal/actor/actor.go:272-321 | Every step keeps how calls end |
| `ActorGroup.StepOk` | internal/actor/actor.go:184-240 | Every step of Run, a caller or an actor keeps the invariant |
| `ActorGroup.StartedOk` | internal/actor/actor.go:184-217 | It holds when Run has started |
| `ActorGroup.OneActor` | internal/actor/actor.go:194-229 | Two actors of a box that haven't ended are the same |
| `ActorGroup.TakeLogged` | internal/actor/actor.go:296-321 | A message is taken only when its box makes no change, and only once |
| `ActorGroup.AnswerLogged` | internal/actor/actor.go:371-412 | A change is answered by the actor that took it |
| `ActorGroup.SomeoneAdvances` | internal/actor/changes.go:52-130 | No set of actors waits for each other: of whatever an actor at work waits for, through however many calls, some step can be taken without a deadline |
| `ActorGroup.NestedIsLonger` | internal/actor/changes.go:52-234 | Every nested call is to a strictly longer name |
| `ActorGroup.WatcherGivesUp` | internal/actor/watch.go:29-79 | A watcher that waits for the actor stopping it gives up, being cancelled first |
| `ActorState.InvKept` | internal/actor/idle.go:55-131 | Every change keeps: an address or anything counted implies awake, a counted command no lease, a pre-wake's count a lease and awake |
| `ActorState.RunConserves` | internal/actor/idle.go:55-94 | Over every run of all actors, pre-wakes woken are those used, those wasted and those still held |
| `ActorState.FailsAreSpaced` | internal/actor/actor.go:417-449 | In one actor's life, between two of a person's Wakes, no span shorter than crashWindow holds more than crashLimit failed wakes |
| `ActorState.WakeCounts` | internal/actor/actor.go:364-449 | The crashes kept count every failed wake not older than the window |
| `ActorState.SleepsOnlyIdle` | internal/actor/idle.go:96-131 | After any run the timer stops a box only with no command counted, and with the last start and end as long ago as the idle times or a lease run out |
| `ActorHistory.HistoryTells` | internal/actor/actor.go:345-487 | Over an actor's life, whatever is asked of it, each field is what one rule over its history gives, with every death remembered where the actor forgets the old ones |
| `ActorHistory.SleepsExactly` | internal/actor/idle.go:96-131 | The timer is set if and only if the box is awake without a command counted and idle sleep is on, for exactly the end of its lease or of both idle times, and then it is stopped |
| `ActorHistory.WakesExactly` | internal/actor/actor.go:417-449 | A box that isn't up is woken if and only if it is known and hasn't died three times in five minutes since a person's last Wake |
| `ActorHistory.CountsTell` | internal/actor/idle.go:55-94 | A pre-wake is counted woken, used and wasted exactly when it woke a sleeping box, was followed by a use, or by a stop |
| `ActorHistory.NewTells` | internal/actor/actor.go:364-387 | A new actor begins so, with the crashes of the last |
| `Actor.Actor.Wake` | internal/actor/actor.go:417-460 | The fields after a wake, and that the effects on box and disk stay in order |
| `Actor.Actor.StopBox` | internal/actor/actor.go:464-487 | After a stop the box is down and everything counted is cancelled |
| `Actor.Actor.CancelAll` | internal/actor/actor.go:480-485 | The loops cancel every command counted |
| `Actor.Actor.DropOld` | internal/actor/actor.go:365-367 | The loop keeps the times within the window, in order |
| `Actor.Actor.PrewakeBox` | internal/actor/idle.go:55-84 | A pre-wake is counted woken exactly when it woke a sleeping box |
| `Actor.Actor.EndLease` | internal/actor/idle.go:89-94 | A held pre-wake is counted once, used or wasted |
| `Actor.Actor.ArmIdle` | internal/actor/idle.go:108-114 | The timer is armed for the deadline of an awake box with no command, if idle sleep is on |
| `Actor.Actor.SleepIfIdle` | internal/actor/idle.go:116-131 | Nothing changes with a command counted or before the deadline |
| `Actor.Actor.Exec` | internal/actor/exec.go:59-93 | A command is counted under a new number exactly when the box woke, and uses a pre-wake |
| `Actor.Actor.EndExec` | internal/actor/exec.go:98-120 | A command is no longer counted; one a stop cancelled changes nothing |
| `Actor.Actor.WakeAsked` | internal/actor/changes.go:239-252 | A person's wake forgets the crashes and touches the box |
| `Actor.Actor.TouchBox` | internal/actor/watch.go:56-79 | A touch of a box that is up counts as a use |
| `Actor.Actor.Restore` | internal/actor/changes.go:179-205 | The disk is swapped only with the box stopped and nothing counted (DiskSafe, over the actor's whole life, also of one started for a box already up) |
| `Actor.Actor.Delete` | internal/actor/changes.go:52-76 | The disk is deleted only with the box stopped and nothing counted, likewise |
| `Actor.Actor.Handle` | internal/actor/actor.go:371-412 | Every message or timer is one step of the state machine, and arms the timer again |
| `Forks.ForkOfForkID` | internal/store/store.go:133-153 | ForkOf undoes ForkID for every non-empty ID and n at least 1 |
| `Forks.ForkIDOfFork` | internal/store/store.go:140-153 | What ForkOf accepts is the ForkID of what it returns |
| `Forks.EnvOfAgentBox` | internal/store/store.go:119-131 | An agent box belongs to its environment |
| `Forks.BoxesApart` | internal/store/store.go:119-131 | An environment's box is its own, and no environment is named like an agent box |
| `Names.EnvIDPattern` | internal/store/store.go:64-65 | Exactly the IDs the pattern matches |
| `Names.SnapIDPattern` | internal/store/store.go:64-65 | Exactly the IDs the pattern matches, here of snapshots |
| `Forks.Envs.ForksOf` | internal/actor/changes.go:133-145 | The numbers found are exactly those of the environment's forks |
| `Forks.Envs.MakeForks` | internal/actor/changes.go:93-130 | The forks made have the smallest positive numbers not in use, none was there before, the loop ends by MaxForks, the environment never has more than MaxForks, and it fails only for a count out of range, an unknown environment, too many forks or a create that fails |
| `Forks.Ends` | internal/actor/changes.go:113-122 | By counting, the loop's number never passes MaxForks |

## Left out

- Prune and Orphans: which snapshots are kept is a query; the model deletes snapshots one at a time.
- Nested subvolumes, and the order they are deleted in.
- Owners, modes and times of files, and sockets, pipes and devices but as entries an overlay skips.
- The shape of worktree paths and the symlinks on them that a create checks; git's folder and the free space are inputs.
- The strip's own list file, and entries of it that name a path outside the workspace.
- Symlinks that lead out of a tree, and how many a lookup follows: the number is a parameter.
- Errors of the SDK's stdout, reading lines off its stdin, and which command lines hibernation applies to.
- Hibernate.Hibernator.OnTick: an idle time that isn't positive, and the ticker's own period, are not modelled.
- gzip, JSON, the S3 protocol, the state archive's contents and what it restores of them: a state is an object that is there.
- Backer.Backer.Once: a node restored under its old name onto a file system whose generations start again is not covered, because generations are compared only as numbers.
- Restore.RestoreAll: only workspaces; errors of the disk or the bucket during a restore are not modelled.
- The ciphers themselves, the key and its parsing.
- Restores of the agent box: its actor is free again after its stop, so it may wake before the disk is swapped.
- The pace at which a failed idle sleep under a lease is tried again.
- Crashes handed from one actor of a box to the next: a new actor may begin with any.
- Golden builds, the sweep of removed worktrees, previews, metrics but the pre-wakes', traces and logs.
- ActorGroup.SomeoneAdvances: says that a step can be taken, not that the scheduler takes it.
- HTTP, WebSocket and MCP serving, the command line, GitHub tokens, runsc, networks, fern-init and image unpacking.
