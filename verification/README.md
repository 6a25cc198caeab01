# Verified model of the wa daemon's core

`wa` is a WhatsApp command-line client and its daemon `wad`. This project models
the parts of the daemon whose correctness depends on crashes, interleavings or
exact text, and proves what they promise. `dafny verify dfyconfig.toml` checks
everything.

| file | what it models |
|---|---|
| `Text.dfy` | splitting, trimming, decimal numbers, Go's string order |
| `Disk.dfy` | a filesystem whose every call may fail; a crash is a run whose remaining writes all fail |
| `Marker.dfy` | the migration's write-ahead marker as text |
| `Layout.dfy` | the file table, the whole-run invariant, convergence of recovery |
| `Profile.dfy` | the daemon's real paths, as an instance of that table |
| `Rollback.dfy` | the state of the files while they are copied back |
| `Migration.dfy` | plan, apply, abort, recover, roll back, and the boot-time decision |
| `CanonicalJson.dfy` | the canonical bytes behind idempotency fingerprints |
| `Idempotency.dfy` | the replay protocol over the store |
| `ChannelEnvelope.dfy` | the `<channel>` envelope printer and a parser that undoes it |
| `EventBridge.dfy` | concurrent event fan-out as a state machine, the code of one dispatcher, and the clocks |
| `Watchdog.dfy` | the soft-stale watchdog with its int64 backoff |
| `EmbedPipeline.dfy` | workers, lossy channel, durable backlog, retries and poison drop |
| `EmbedRows.dfy` | what the pipeline keeps of each row when ids are enqueued again |
| `EmbedInputs.dfy` | which messages can be enqueued so that every run keeps those promises |
| `HybridSearch.dfy` | reciprocal rank fusion over real scores |
| `MediaTransfer.dfy` | the chunked media transfer, client against server |
| `QuoteValidation.dfy` | the memoised check of quoted message ids |
| `Jid.dfy` | identifiers, actions and their text forms |
| `Allowlist.dfy` | the allowlist, its file, and the transactions on both |

How to read the migration results. `Inv` ties disk, marker and schema version
together. Each method of `MigrationTx` keeps it for every pattern of failing calls,
so it holds wherever the process dies. `disk.faults` counts the calls that failed
without the disk forcing them to; liveness is stated for runs in which it does not
grow. `orig` and `kept` are the contents being migrated, before and after the WAL checkpoint
that precedes the first rename: it may have removed `-wal` and `-shm` sidecars and
rewritten databases, and nothing else.

How to read the two state machines. `EventBridge.Do` and `EmbedPipeline.Do` are the
atomic sections of the code; `Run` is any interleaving of them by any number of
goroutines, with crashes in the pipeline. The classes beside them hold the source's
fields, run one goroutine's code on them, make the machine's action with each section,
and carry the proof that the fields are those of a reachable state.

## Where the code differs from what is said about it

- A full subscriber channel drops the event being sent, the newest
  (`internal/app/eventbridge.go:239-242`); the comment at lines 276-277 says the
  oldest. `EventBridge.EventBridge.Dispatch` follows the code.
- After an aborted `Apply` the comment at `cmd/wad/migrate.go:564-566` says that the
  next boot retries. It never does: the profile directory made by `ensureDirs` is still
  there, and `autoMigrate` then skips (`cmd/wad/migrate.go:127-131`). This needs no
  failing call. The plan is made before the WAL checkpoint; a checkpoint that opens a
  database and closes it again removes its `-wal` and `-shm`; a planned sidecar that is
  gone makes its rename fail; the abort puts everything back, and the tree is stranded
  for good (`Migration.MigrationTx.Apply`, `Migration.VanishedNeverMigrates`).
  `Migration.MigrationTx.AutoMigrate` states exactly when a boot migrates, and
  `Layout.NoSidecarNoneVanished` that a tree without sidecars is safe from this.
  Nothing is lost.
- The comment at `cmd/wad/watchdog.go:303-305` ties re-fires to "the episode's first
  edge-recover"; the code looks at the whole run. `Watchdog.RefireExactly` states when a
  re-fire happens, `Watchdog.EdgelessSilentExactly` when an episode without an edge
  stays silent, and `Watchdog.SilentEpisodeRefires` is a run in which one does not.
- A row is not always dropped on its own retry budget. The counter of an id stands at
  the budget at every drop exactly for a pipeline with one worker
  (`EmbedPipeline.BudgetExactlyForOneWorker`); with two, `EmbedPipeline.FreshRowDropped`
  is a run that drops at zero. But the counter belongs to the id: when an id is enqueued
  again while its counter is not clear or a tombstone for it is on its way, the new row
  is dropped too early, with one worker too (`EmbedPipeline.ReplacedRowDropped`).
  `EmbedRows.EnqueueExactly` shows that these two conditions on the state at that moment
  are exactly what matters. What a producer can see to beforehand is
  `EmbedInputs.BudgetForInputsExactly`: every run over a list of messages keeps to the
  rows' own budgets if and only if no id occurs twice in the list. For any number of
  workers every drop was decided on a used-up counter.
- An accepted message can be lost, with one worker too: `MarkIndexed` clears whatever
  row the id has by then, also one that was enqueued after the worker took the old one
  (`EmbedRows.ReplacedRowLost`: Enqueue has returned, its nudge was in the channel, and
  the process dies before a worker takes it). `EmbedInputs.HeldForInputsExactly` says
  when this cannot happen: every run that enqueues messages of a set, with any number of
  workers and crashes, keeps hold of the message accepted last under each id if and only
  if no two different messages of the set share an id.
- Numbers need not arrive in order. A waiter can get number 2 before number 1, when two
  goroutines dispatch and the second to stamp is the first to deliver
  (`EventBridge.Overtaken`); every waiter of every run gets increasing numbers exactly if
  a single goroutine dispatches (`EventBridge.IncreasingExactlyForOneDispatcher`).
- `ApplyRollback` ignores failing unlinks (`cmd/wad/migrate.go:507-517`). A rollback
  that reports success has put all contents back; it leaves 008 copies exactly when
  their unlinks failed, and version 2 exactly when the unlink of the schema file did
  (`Migration.MigrationTx.ApplyRollback`). After one that was cut off the boots leave the tree
  exactly as it is (`Migration.BootsAfterRollback`), and a second rollback is refused as
  soon as session.db is back or a file is at both paths (`Migration.RollBackAgain`). After
  a complete one the next boots migrate the tree again, unless a profile directory that
  was not empty outlived it (`Migration.BootsAfterFullRollback`).
- The comment at `internal/app/channelwrap_fields.go:90-92` says that attributes are
  HTML-escaped too. The code only quotes them, and is right to: chat and sender are
  identifiers, which print without quotes or angle brackets
  (`ChannelEnvelope.JidsPrintPlain`).

## Model

| member | source | states |
|---|---|---|
| Marker.WriteMarker | cmd/wad/migrate.go:772-796 | the text written is the header, the timestamp, one tab-separated line per copy step in plan order, and the digest of all of that |
| Marker.WriteSteps | cmd/wad/migrate.go:778-788 | the loop appends the copy steps' lines and nothing for other steps |
| Marker.ReadMarker | cmd/wad/migrate.go:800-818 | the steps read are those of the recognisable lines, in order; comment, timestamp, checksum and malformed lines yield none |
| Marker.ParsedStepsAreClean | cmd/wad/migrate.go:803-815 | whatever a marker contains, a step read from it has a From without tab or newline and a non-empty To without newline or trailing white space |
| Marker.RenderIs | cmd/wad/migrate.go:772-796 | the text itself, character by character: header line, `ts=` line, `copy`, source and destination with tabs between for each copy step, `sha256=` line over all of that |
| Marker.MalformedIgnored | cmd/wad/migrate.go:803-815 | a line with fewer than two tabs yields no step |
| Marker.RoundTrip | cmd/wad/migrate.go:772-818 | reading what was written gives exactly the plan's copy steps, in order, if and only if all of them have such paths |
| Layout.LegacyInv | cmd/wad/migrate.go:82-135 | a tree left by the old daemon satisfies the whole-run invariant |
| Layout.NothingLost | cmd/wad/migrate.go:236-308 | under the invariant each planned file is at exactly one of its two paths, with its original contents |
| Layout.HalfMigratedHasMarker | cmd/wad/migrate.go:250-305 | some file moved and some not implies that the marker is there and the version is below 2 |
| Layout.FreshBranchNeverTaken | cmd/wad/migrate.go:107-123 | a tree that began as 007 never looks like a fresh install, so version 2 is never stamped on it by that branch |
| Layout.MoveForward | cmd/wad/migrate.go:545-560 | one rename moves its file, and every other file stays where it was |
| Layout.MoveBack | cmd/wad/migrate.go:608-638 | one undo brings its file back, and files already back stay |
| Layout.VersionRoundTrip | cmd/wad/migrate.go:695-720 | the version read from what was written is the version written |
| Layout.VersionReads | cmd/wad/migrate.go:702-720 | no version file, or one that holds no integer, means version 1; otherwise its integer |
| Layout.PointerTexts | cmd/wad/migrate.go:276-299 | after a migration the two pointer files hold `2` and `default`, each with a newline |
| Layout.SidecarVanishes | cmd/wad/migrate.go:527-540 | a sidecar removed by a checkpoint leaves the invariant, for the remaining files |
| Layout.DatabaseRewritten | cmd/wad/migrate.go:844-886 | a checkpoint that rewrites a database file leaves the invariant, for the rewritten contents |
| Layout.NoSidecarNoneVanished | cmd/wad/migrate.go:527-540 | a tree without sidecars loses no planned file to a checkpoint: what a caller can check beforehand |
| Layout.NothingToCheckpoint | cmd/wad/migrate.go:527-540 | a tree without a database comes out of the checkpoint with exactly the contents it had |
| Layout.AdvancedKeepsStarted | cmd/wad/migrate.go:319-356 | once a destination exists, no recovery, complete or cut off, makes that false again |
| Layout.FinalUnique | cmd/wad/migrate.go:319-356 | two completed recoveries from one state leave the same files |
| Layout.AdvancedTransitive | cmd/wad/migrate.go:319-356 | one cut-off recovery after another is a cut-off recovery, and completing the last completes the first |
| Layout.RecoveryConverges | cmd/wad/migrate.go:319-413 | any number of recoveries cut off anywhere, then a completed one, leave the files that one uninterrupted recovery from the first state leaves |
| Layout.NoResidue | cmd/wad/migrate.go:419-432 | when everything has moved there is no source left for the cleanup to unlink |
| Layout.NotStartedAtFrom | cmd/wad/migrate.go:326-331 | a marked tree without a destination is still the 007 tree, so deleting its marker loses nothing |
| Layout.StartedByPlan | cmd/wad/migrate.go:362-372 | the plan read from the marker shows a destination exactly when a migrated file has one |
| Profile.WaLayoutValid | cmd/wad/migrate.go:148-158 | the nine real moves and the three pointer files meet every assumption of the migration theorems, for all homes whose directories bear none of the managed names; every file moves into a directory that `ensureDirs` makes |
| Profile.WaPaths | cmd/wad/migrate.go:148-158 | the eighteen real paths of the nine files, the three pointer files and the three profile directories |
| Profile.WaDatabases | cmd/wad/migrate.go:527-540 | of the real table a checkpoint opens session.db and messages.db, and their `-wal` and `-shm` are the sidecars |
| Profile.WaHasRequired | cmd/wad/migrate.go:148-170 | under the invariant the real table never misses a required file |
| Migration.PlanCovers | cmd/wad/migrate.go:200-217 | the copy steps of a plan are planned moves only, and include every file there is |
| Migration.MarkerCovers | cmd/wad/migrate.go:250-255 | so does the plan read back from the marker |
| Migration.MigrationTx.Plan | cmd/wad/migrate.go:139-218 | a plan is refused exactly when a check fails, a required file is missing or a destination exists; otherwise file i is copied if it is there and skipped if not |
| Migration.MigrationTx.CheckpointSources | cmd/wad/migrate.go:527-540 | of the databases that are there, the file may be rewritten and the sidecars may vanish; no other file changes in any way, and the tree stays an unstarted one |
| Migration.MigrationTx.WalCheckpointTruncate | cmd/wad/migrate.go:844-886 | the same for one database: of the files to be accounted for only that file changes, and only its own `-wal` and `-shm` vanish; no other path is touched |
| Migration.MigrationTx.RewriteDatabase | cmd/wad/migrate.go:844-886 | the database file has new contents, which are accounted for, and nothing else changes |
| Migration.MigrationTx.DropSidecar | cmd/wad/migrate.go:844-886 | either nothing happened, or the sidecar is gone from the disk and from what is to be accounted for, and nothing else is |
| Migration.MigrationTx.EnsureDirs | cmd/wad/dirs.go:18-55 | only directories are added; on success all four of the profile's directories exist |
| Migration.MigrationTx.RenamePlan | cmd/wad/migrate.go:545-560 | invariant kept; success means every file moved; a failure that took the marker away means every file is back; without failing calls it succeeds exactly when no planned file has vanished, and undoes everything otherwise |
| Migration.MigrationTx.RenameOne | cmd/wad/migrate.go:547-559 | one file of the loop: moved, or the whole loop undone; without failing calls it is undone only when the planned file has vanished |
| Migration.MigrationTx.AbortRenames | cmd/wad/migrate.go:570-584 | the marker goes only when every file is back at its 007 path; when no call fails the tree is an unstarted one again |
| Migration.MigrationTx.RollbackRenames | cmd/wad/migrate.go:608-638 | reports complete only if every move before the failing one was undone, and does so when no call fails; never touches the failing file or later ones |
| Migration.MigrationTx.PlanHasAnyDestination | cmd/wad/migrate.go:362-372 | true exactly when the destination of some copy step exists |
| Migration.MigrationTx.FinishPartialRenames | cmd/wad/migrate.go:391-413 | files that had moved stay moved, and on success no planned source is left; wherever it stops each file is at one of its paths |
| Migration.MigrationTx.FinishOne | cmd/wad/migrate.go:396-411 | one pending move, or nothing but directories |
| Migration.MigrationTx.CleanupResidualSources | cmd/wad/migrate.go:419-432 | removes planned sources only, and changes nothing when none is left |
| Migration.MigrationTx.WritePointers | cmd/wad/migrate.go:276-299 | everything stays moved and marked; success means that schema version and active profile are on disk |
| Migration.MigrationTx.Recover | cmd/wad/migrate.go:319-356 | from any marked state: invariant kept; a started migration only advances, and is complete on success; an unstarted one loses its marker only; succeeds when no call fails |
| Migration.MigrationTx.Forward | cmd/wad/migrate.go:340-355 | the forward half of that |
| Migration.MigrationTx.WriteAheadMarker | cmd/wad/migrate.go:250-255 | whether or not the write took effect the files are untouched; on success the marker covers the plan |
| Migration.MigrationTx.PrepareDirs | cmd/wad/migrate.go:257-261 | files untouched, also when directories cannot be made; on success every directory that a file moves into exists |
| Migration.MigrationTx.MoveAll | cmd/wad/migrate.go:257-308 | the rest of Apply: all moved and pointers written, or the invariant with its marker, or everything back; without failing calls it succeeds exactly when no planned file has vanished, and strands the tree otherwise |
| Migration.MigrationTx.Conclude | cmd/wad/migrate.go:276-307 | everything stays moved; a failure leaves the marker; without failing calls the marker is gone |
| Migration.MigrationTx.Apply | cmd/wad/migrate.go:236-308 | for every pattern of failures the invariant holds of all files but vanished sidecars; success means all moved, version 2 and active profile on disk; without failing calls it succeeds when the checks pass, the required files are there and no sidecar vanishes, and when one vanishes it fails and leaves the 007 tree with a profile directory; a dry run changes nothing and succeeds exactly when the checks pass and the required files are there |
| Migration.MigrationTx.AutoMigrate | cmd/wad/migrate.go:82-135 | one boot keeps the invariant; a fresh install changes at most the schema file, and without failing calls has version 2 afterwards; a migrated tree, and any tree whose profile directory exists, is left alone; recovery takes precedence; with no failing call an unstarted tree is migrated if and only if the checks pass, the required files are there, there is no profile directory yet and no planned sidecar vanishes, and is stranded when one vanishes; the boot reports success exactly when it had nothing to do or has finished, a quiet one exactly when no call failed |
| Migration.Boots | cmd/wad/migrate.go:82-135 | any number of boots, each cut off anywhere, starting from a 007 tree: the invariant holds of every file but checkpointed sidecars, and only databases have been rewritten |
| Migration.FaultlessBoots | cmd/wad/migrate.go:82-135 | any number of boots from an unstarted tree in which no call fails: everything is at its 008 path if and only if some boot passes the checks, the required files are there, there was no profile directory and no planned sidecar vanishes, and at its 007 path otherwise; which of the boots report success |
| Migration.BootsFromStart | cmd/wad/migrate.go:125-131 | the same, and with a profile directory there nothing changes, whatever fails |
| Migration.VanishedNeverMigrates | cmd/wad/migrate.go:247-266 | a first boot in which no call fails but the checkpoint takes a planned sidecar away, and any number of boots after it: the tree is the 007 tree for good |
| Migration.QuietStays | cmd/wad/migrate.go:98-131 | a tree at version 2, or one with a session database beside a profile directory, stays exactly as it is however many boots follow, and every one of them reports success as long as no call fails |
| Migration.StrandedIsQuiet | cmd/wad/migrate.go:125-131 | a stranded tree is such a tree |
| Migration.Recoveries | cmd/wad/migrate.go:319-356 | any number of calls of Recover, each cut off anywhere, until one completes: the files are those that one uninterrupted call leaves from the first state |
| Migration.BootsAfterRollback | cmd/wad/migrate.go:436-520 | a rollback cut off anywhere short of dropping the schema file, then any number of boots: the filesystem is exactly the one that the rollback left, with each file at one of its paths and version 2 |
| Migration.RollBackFully | cmd/wad/migrate.go:436-520 | a rollback in which no call fails, from one profile and with every 007 directory there, leaves an unstarted 007 tree with the same contents |
| Migration.BootsAfterFullRollback | cmd/wad/migrate.go:82-131 | after such a rollback boots in which no call fails migrate the tree again if and only if some boot passes the checks, the required files are there, no profile directory outlived the rollback and no planned sidecar vanishes; one that outlived it keeps the tree as it is, failing calls or not |
| Migration.RollBackAgain | cmd/wad/migrate.go:436-508 | a second rollback after one that was cut off succeeds, no call failing, exactly when session.db has not been moved back yet and no file is at both of its paths or without its 007 directory; it then restores everything |
| Rollback.ReversingCopied | cmd/wad/migrate.go:645-678 | in the middle of a copy, whatever prefix is written, each file is at one of its paths with its contents |
| Rollback.ReversingStep | cmd/wad/migrate.go:498-507 | so it is between any two entries of the loop, with the files before it back; an 008 copy is left exactly by a failed unlink |
| Rollback.BackExactly | cmd/wad/migrate.go:494-508 | with all contents back the tree is the 007 tree exactly when no 008 copy is left |
| Migration.MigrationTx.ReverseOne | cmd/wad/migrate.go:498-507 | a file is copied back before its 008 copy is unlinked; a failure leaves the contents at one path; without failing calls it is refused exactly when the file is at both paths or its 007 directory is missing |
| Migration.MigrationTx.ReverseMoves | cmd/wad/migrate.go:494-508 | success means that all contents are back, and exactly so if and only if every unlink took effect; without failing calls it succeeds exactly when no file was at both paths or without its 007 directory |
| Migration.MigrationTx.DropPointers | cmd/wad/migrate.go:510-519 | never touches a migrated file; the version is 1 exactly when the schema file could be unlinked, whatever happens to the directories |
| Migration.MigrationTx.ApplyRollback | cmd/wad/migrate.go:436-520 | from any tree with each file at one of its paths, and wherever it stops, that remains so; success means all contents back, the 007 paths exactly if and only if the 008 copies could be unlinked, and version 1 if and only if the schema file could; without failing calls it succeeds exactly when there is one profile, version 2, session.db at its 008 path, no marker, and no file at both paths or without its 007 directory; a dry run changes nothing |
| Rollback.RollbackRestores | cmd/wad/migrate.go:436-520 | two trees with everything at the 007 paths agree on every managed path, present or absent |
| Migration.MigrateAndRollBack | cmd/wad/migrate.go:236-520 | Apply then ApplyRollback, no call failing and no sidecar vanishing: everything at the 007 paths with the contents the checkpoint left, so the path-to-contents map is as before when it rewrote nothing; effective version 1 |
| Disk.Disk.AtomicWrite | cmd/wad/migrate.go:730-766 | the file has its old or its new contents, never a mixture; a reported failure may have taken effect |
| Disk.Disk.CopyFile | cmd/wad/migrate.go:645-678 | never overwrites; a target without a directory is refused; a failure leaves the target absent or with part of the contents, and the source intact |
| Disk.Disk.Probe | cmd/wad/migrate.go:378-387 | an answer is true; anything else, a refused symlink included, is an error |
| Disk.Disk.RemoveDir | cmd/wad/migrate.go:510-513 | a directory that is missing or not empty is refused, which is no failure of the disk |
| CanonicalJson.EscapeCharUnique | internal/app/idempotency.go:146-190 | escaped characters are prefix-free |
| CanonicalJson.EscapeCharIs | internal/app/idempotency.go:146-190 | quotes, backslashes and the five short controls are written with a backslash, all characters that need no escape as they are |
| CanonicalJson.EscapeHexIs | internal/app/idempotency.go:146-190 | angle brackets, ampersands and the two line separators are written in hexadecimal |
| CanonicalJson.EscapeControlIs | internal/app/idempotency.go:146-190 | so are the other control characters |
| CanonicalJson.PrintIs | internal/app/idempotency.go:146-190 | the canonical text of every kind of value, with an object in the order of its sorted keys and commas between |
| CanonicalJson.PrintUnique | internal/app/idempotency.go:146-190 | a canonical text followed by a delimiter can be read in one way only |
| CanonicalJson.CanonicalInjective | internal/app/idempotency.go:89-144 | canonical bytes are equal exactly when the values are, once `idempotencyKey`, `requestId`, `ts` and `timestamp` are gone from the top level |
| CanonicalJson.ReservedIgnored | internal/app/idempotency.go:135-144 | each of the four reserved keys never counts at the top level |
| CanonicalJson.NestedCounts | internal/app/idempotency.go:135-144 | any other key counts with its whole value, so `ts` one level down does |
| CanonicalJson.MemberOrderIrrelevant | internal/app/idempotency.go:102-126 | the order of an object's members in the request is irrelevant |
| CanonicalJson.SortedUnique | internal/app/idempotency.go:149-153 | sorting leaves no choice: a set of keys has one sorted list |
| CanonicalJson.SortStrings | internal/app/idempotency.go:149-153 | the keys come out strictly ascending, none added, none lost |
| CanonicalJson.CollectKeys | internal/app/idempotency.go:149-153 | ranging over a map yields each key once, in any order |
| CanonicalJson.MarshalCanonical | internal/app/idempotency.go:146-190 | the buffer holds the canonical print of the value, whatever order maps are ranged over |
| CanonicalJson.MarshalObject | internal/app/idempotency.go:148-172 | the same for an object |
| CanonicalJson.MarshalArray | internal/app/idempotency.go:173-186 | the same for an array |
| CanonicalJson.CanonicalJSON | internal/app/idempotency.go:89-144 | the bytes of the stripped value; the caller's value is not changed |
| Idempotency.RecordedIsFound | internal/adapters/secondary/sqlitehistory/idempotency.go:117-152 | what is recorded is found until it expires, by params equal up to reserved keys; all other params conflict, all other ids are unaffected |
| Idempotency.SweepInvisible | internal/adapters/secondary/sqlitehistory/idempotency.go:99-110 | a sweep is invisible to every later check, and takes every row that has expired by then |
| Idempotency.CallOutcome | internal/app/idempotency.go:47-72 | when a protected call runs the callback, and exactly when each of its replies is given: the recorded result, a conflict, the fresh result, a failure; only a fresh result is stored |
| Idempotency.Store.LoadOrStore | internal/adapters/secondary/sqlitehistory/idempotency.go:49-95 | with a key, the protected call with a day's expiry; without one the callback runs, its outcome is the reply, and the store is not touched |
| Idempotency.IdempotencyExec | internal/app/idempotency.go:28-73 | reply, store and number of callback runs are those of the protected call; a key that is not 1 to 64 letters, digits, `_` or `-` touches nothing |
| Idempotency.IdempotentCall | internal/app/method_idempotency.go:61-92 | the same over LoadOrStore; with no key or no store the callback runs and its outcome is the reply; an unparseable payload is no call |
| Idempotency.LiveRowKept | internal/app/idempotency.go:28-73 | nothing that happens while a row is live, sweeps included, touches it |
| Idempotency.LiveKeyReplays | internal/app/idempotency.go:47-72 | after a success and any history since, a live key never runs the callback: params equal up to reserved keys get the recorded result, all others a conflict |
| Idempotency.FailureLeavesNoTrace | internal/app/idempotency.go:57-71 | a call that fails, is answered from the store, or conflicts can be taken out of any history of calls and sweeps without changing what comes after; after a callback that failed, or a result that could not be stored, the next call runs again |
| ChannelEnvelope.SequentialIsOnePass | internal/app/channelwrap.go:34-48 | the three replacements in sequence escape each character once; no entity is escaped twice |
| ChannelEnvelope.EscapeRoundTrip | internal/app/channelwrap.go:34-48 | an escaped text has no angle bracket and unescapes to the text itself, with U+FFFD exactly in place of the control characters other than tab, newline and carriage return |
| ChannelEnvelope.EscapeCharacters | internal/app/channelwrap.go:34-48 | what is written for each character, one after the other |
| ChannelEnvelope.NameTextInjective | internal/app/channelwrap_fields.go:95-129 | field names are told apart by their texts |
| ChannelEnvelope.CollectFieldsOf | internal/app/channelwrap_fields.go:95-129 | the list of children determines every field, with omitted fields empty and poll options by index |
| ChannelEnvelope.JidsPrintPlain | internal/domain/jid.go:195-200 | every identifier the parser accepts prints without quotes or angle brackets |
| ChannelEnvelope.EnvelopeRoundTrip | internal/app/channelwrap_fields.go:95-129 | parsing an envelope returns chat, sender and timestamp and, field by field and character by character, the texts with U+FFFD exactly in place of their control characters |
| ChannelEnvelope.TextSurvives | internal/app/channelwrap_fields.go:95-129 | fields without control characters come back as they were |
| ChannelEnvelope.EnvelopeIs | internal/app/channelwrap_fields.go:95-129 | the text itself for all fields: the opening tag, the eleven named fields and the poll options in their places, each left out when it is empty and not an option, and the closing tag |
| ChannelEnvelope.WrapRoundTrip | internal/app/channelwrap.go:21-26 | the same for the single-body envelope |
| ChannelEnvelope.ClosedOnce | internal/app/channelwrap_fields.go:95-129 | whatever the fields contain, the closing tag occurs once, at the end |
| ChannelEnvelope.EmitInto | internal/app/channelwrap_fields.go:100-106 | appends one child, or nothing for an empty value |
| ChannelEnvelope.EmitSlots | internal/app/channelwrap_fields.go:112-125 | appends the non-empty fields in order |
| ChannelEnvelope.EmitPolls | internal/app/channelwrap_fields.go:118-120 | appends every poll option with its index, empty ones included |
| ChannelEnvelope.ChannelWrapFields | internal/app/channelwrap_fields.go:95-129 | the text built piece by piece is the envelope the round trip speaks of |
| ChannelEnvelope.ChannelWrapFieldsIf | internal/app/channelwrap_fields.go:135-140 | without a guard the empty text, which is no envelope; with one, a text that parses back to chat, sender, timestamp and the control-cleaned fields |
| EventBridge.ActionKeeps | internal/app/eventbridge.go:195-319 | every atomic section of every goroutine keeps the invariant |
| EventBridge.RunKeepsInv | internal/app/eventbridge.go:195-319 | so does every interleaving, from any seed |
| EventBridge.SeqIdentifiesEvent | internal/app/eventbridge.go:195-199 | numbers are above the seed, and equal numbers mean the same event at every consumer |
| EventBridge.DeliveriesAreWanted | internal/app/eventbridge.go:224-244 | every event a waiter got is of a kind its filter lists, or its filter is empty, and the waiter was in that event's snapshot |
| EventBridge.DueMeans | internal/app/eventbridge.go:229-244 | the events that the accounting speaks of are those that were snapshotted with the waiter and that its filter takes: all kinds when it is empty, the listed ones otherwise |
| EventBridge.DeliveriesAreOrdered | internal/app/eventbridge.go:224-244 | a waiter gets an event at most once, and one goroutine's events in increasing order |
| EventBridge.Overtaken | internal/app/eventbridge.go:195-246 | from any seed: a run of two dispatchers in which a waiter gets the second number before the first |
| EventBridge.IncreasingExactlyForOneDispatcher | internal/app/eventbridge.go:195-246 | every waiter of every run of at most n dispatchers gets its events in increasing order of their numbers if and only if n is at most one |
| EventBridge.NothingUnaccounted | internal/app/eventbridge.go:229-244 | delivered, dropped and in-flight events are disjoint and together are exactly the matching events snapshotted with the waiter, also in number |
| EventBridge.MainChannelOrder | internal/app/eventbridge.go:215-221 | the main channel carries one goroutine's events in increasing order |
| EventBridge.Finished | internal/app/eventbridge.go:234-246 | when a dispatcher is idle again, every registered waiter that wants its event has it or has lost it |
| EventBridge.EventBridge.Dispatch | internal/app/eventbridge.go:195-246 | counter up by one; clocks moved for upstream events only, the traffic clock for `message` and `receipt` only; the event is queued on the main channel if fewer than 64 are there; each registered waiter whose filter is empty or lists the kind gets it at the end of its channel if there is room, and loses it otherwise; all other channels unchanged |
| EventBridge.EventBridge.StampEvent | internal/app/eventbridge.go:199 | the machine's stamp action, on the counter |
| EventBridge.EventBridge.PushOut | internal/app/eventbridge.go:215-221 | the machine's push action, on the main channel |
| EventBridge.EventBridge.TakeSnapshot | internal/app/eventbridge.go:229-232 | the machine's snapshot action: the waiters registered at that moment |
| EventBridge.EventBridge.DeliverAll | internal/app/eventbridge.go:234-244 | each waiter of the snapshot is offered the event exactly once, one machine action each |
| EventBridge.EventBridge.DeliverOne | internal/app/eventbridge.go:235-243 | the machine's delivery action: a waiter whose filter is empty or lists the kind, and that has room, has the event appended; no other channel changes |
| EventBridge.EventBridge.RegisterSubscriber | internal/app/eventbridge.go:295-306 | one more waiter, at the end, with an empty channel |
| EventBridge.EventBridge.SubscribeStream | internal/app/eventbridge.go:283-288 | a buffer of at least one |
| EventBridge.EventBridge.Cancel | internal/app/eventbridge.go:308-317 | exactly that waiter goes and the order of the others stays; channels are untouched |
| EventBridge.Remove | internal/app/eventbridge.go:311-316 | the in-place removal takes out the first occurrence and keeps the rest in order |
| EventBridge.SyntheticLeavesNoTrace | internal/app/eventbridge.go:195-207 | after any run of dispatches the clocks are those of its upstream events alone |
| EventBridge.EventBridge.EmitSynthetic | internal/app/eventbridge.go:255-260 | a synthetic event goes through the same fan-out, to the main channel and to the same waiters, and leaves both clocks alone |
| Watchdog.ParsedIsLegal | cmd/wad/watchdog.go:101-131 | whatever the environment says, an enabled watchdog has a threshold in [30, 3600] and a cap between it and 86400 |
| Watchdog.ThresholdExactly | cmd/wad/watchdog.go:101-131 | the threshold for every setting: 0 for what is no positive integer, clamped to [30, 3600] otherwise |
| Watchdog.CapExactly | cmd/wad/watchdog.go:426-459 | the cap for every setting: an hour for what is no positive integer, at most a day, never below the threshold |
| Watchdog.ShiftFits | cmd/wad/watchdog.go:284-287 | the clamped shift never leaves int64 |
| Watchdog.BackoffRefines | cmd/wad/watchdog.go:275-299 | the clamped int64 code computes min(max(cooldown, T * 2^(s-1)), max(cap, T)) for every streak, with 300 and 3600 seconds for an unset cooldown and cap, and the cooldown alone for no streak |
| Watchdog.GapMonotone | cmd/wad/watchdog.go:275-299 | gaps are positive, grow with the streak and stay under the cap |
| Watchdog.TickExactly | cmd/wad/watchdog.go:214-339 | one tick for all states: stale if and only if the last event is at least the threshold ago, unknown when the websocket is down, unchanged before the first event; an emission exactly on a change between healthy and stale; a reconnect exactly on a change to stale or while it stays so after an earlier one, when the gap has passed; and the bookkeeping after it |
| Watchdog.UpstreamExactly | internal/app/eventbridge.go:195-207 | an upstream event moves the event clock, and the traffic clock for `message` and `receipt` only |
| Watchdog.EmissionsDoNotFeedBack | internal/app/eventbridge.go:195-207 | cutting the emissions off the bridge changes no later state of any run |
| Watchdog.EmissionsAlternate | cmd/wad/watchdog.go:491-517 | two consecutive emissions of one kind are separated by a tick that saw the websocket down |
| Watchdog.NoRecoverBeforeEdge | cmd/wad/watchdog.go:310-313 | no reconnect before the run's first healthy-to-stale edge |
| Watchdog.RefireExactly | cmd/wad/watchdog.go:310-339 | in every run with positive clock readings, a tick that finds the connection still stale forces a reconnect if and only if some earlier tick of the run forced one and the gap since then has passed |
| Watchdog.EdgeFiresExactly | cmd/wad/watchdog.go:310-339 | a tick that changes healthy to stale forces a reconnect if and only if the run had forced none before or the gap since then has passed |
| Watchdog.LastRecoverTells | cmd/wad/watchdog.go:310-313 | the stored time of the last reconnect is zero exactly as long as the run has forced none |
| Watchdog.EdgelessSilentExactly | cmd/wad/watchdog.go:303-313 | a stale episode without an edge forces no reconnect if and only if the run had forced none before it or all its ticks come within the gap |
| Watchdog.SilentEpisodeRefires | cmd/wad/watchdog.go:303-313 | a run whose later episode has no edge and still reconnects |
| Watchdog.QuietRecoversSpread | cmd/wad/watchdog.go:310-339 | without organic traffic n further reconnects take at least the sum of their n gaps |
| Watchdog.QuietRunBound | cmd/wad/watchdog.go:310-339 | hence at least gap(1) + ... + gap(n) |
| Watchdog.SoftStaleWatchdog.SoftStaleStep | cmd/wad/watchdog.go:491-542 | classification by the configured threshold, sequence number and emission of one tick; an emission is one event, `state.softStale` or `state.restored`, that reaches every subscriber of the bridge that wants it or is lost to it, and the clocks do not move |
| Watchdog.SoftStaleWatchdog.TryRecover | cmd/wad/watchdog.go:310-339 | recovery state and decision of one tick |
| Watchdog.SoftStaleWatchdog.OnTick | cmd/wad/watchdog.go:214-257 | one turn of the loop is one step of the state machine the run theorems speak of |
| EmbedPipeline.NothingLost | internal/app/embed_pipeline.go:124-241 | at every step of every interleaving, with any number of crashes, an id ever accepted is pending, indexed or dropped as poison |
| EmbedPipeline.DropsAreDecided | internal/app/embed_pipeline.go:212-241 | with any number of workers every drop was decided right after a failure that brought the counter to the budget |
| EmbedPipeline.SoloRun | internal/app/embed_pipeline.go:212-241 | with one worker every drop comes with the counter of its id at maxAttempts or more, counted since it was last cleared |
| EmbedPipeline.FreshRowDropped | internal/app/embed_pipeline.go:216-235 | two workers and any budget: a run that ends with the deletion, as poison, of a row enqueued just before, which nobody ever tried, with the counter of its id at zero |
| EmbedPipeline.ReplacedRowDropped | internal/app/embed_pipeline.go:216-235 | one worker and any budget: a run that ends with the deletion, as poison, of a row enqueued just before, which nobody ever tried |
| EmbedPipeline.BudgetExactlyForOneWorker | internal/app/embed_pipeline.go:78-83 | the counter of the id stands at the budget at every drop of every run if and only if there is one worker |
| EmbedRows.NeverTriedExactly | internal/app/embed_pipeline.go:216-235 | a row has no failure of its own exactly when every counted failure of its id came before its Enqueue |
| EmbedRows.RowFailuresMeans | internal/app/embed_pipeline.go:216-235 | the failures a row has itself are the counted ones that no later Enqueue of its id has left behind |
| EmbedRows.LatestMeans | internal/app/embed_pipeline.go:124-140 | the message accepted last is that of the last Enqueue of its id, and counts as dropped when its row has been since |
| EmbedRows.RowBudgetKept | internal/app/embed_pipeline.go:124-241 | any number of workers and crashes: if ids are enqueued again only with their counter clear and no tombstone on its way, every dropped row has itself failed maxAttempts times |
| EmbedRows.EnqueueExactly | internal/app/embed_pipeline.go:124-140 | that condition is exact: after an Enqueue every way to go on drops rows within their own budgets if and only if the state met it at that moment (for a budget of one, if and only if no tombstone was on its way) |
| EmbedRows.StepHolds | internal/app/embed_pipeline.go:194-241 | one step keeps the message accepted last under each id pending, embedded or dropped if and only if it is not one of the two losing calls |
| EmbedRows.HeldExactly | internal/app/embed_pipeline.go:124-241 | for every run: that message is held throughout if and only if no single step is one of those two calls; the step between the runs and the inputs of EmbedInputs.HeldForInputsExactly |
| EmbedRows.ReplacedRowLost | internal/app/embed_pipeline.go:131-138 | one worker, any two different messages with one id: a run in which the Enqueue of the second has returned and after which nothing of that message is left, in the store, the index, the channel or a worker |
| EmbedInputs.RunKnown | internal/app/embed_pipeline.go:124-241 | at every point of every run, rows, index, channel and workers hold only messages that Enqueue accepted, each under its own id, and an id never enqueued has no counted failure |
| EmbedInputs.HeldForInputsExactly | internal/app/embed_pipeline.go:124-241 | for any set of messages: every run that enqueues only those, with any number of workers and crashes, holds the message accepted last under each id at every point, if and only if no two different acceptable messages of the set share an id |
| EmbedInputs.SecondRowDropped | internal/app/embed_pipeline.go:212-241 | any list whose last message has the id of an earlier one, and any budget: a run over it in which a row is dropped before it has failed that often itself |
| EmbedInputs.BudgetForInputsExactly | internal/app/embed_pipeline.go:124-241 | for any list of messages and any budget: every run that calls Enqueue along the list, as far as it gets, drops only rows that used up the budget themselves, if and only if no id occurs twice among the acceptable messages of the list |
| EmbedPipeline.ReachableSafe | internal/app/embed_pipeline.go:158-241 | the same guarantees for every state the class can be in |
| EmbedPipeline.HealthyBatch | internal/app/embed_pipeline.go:184-210 | a batch during which every call succeeds: all its messages are indexed and none stays pending |
| EmbedPipeline.DroppedAtBudget | internal/app/embed_pipeline.go:212-241 | a row that cannot be embedded stays through maxAttempts - 1 failures and is dropped and counted with the next |
| EmbedPipeline.Pipeline.Start | internal/app/embed_pipeline.go:109-119 | a started process has an empty channel and the store it found |
| EmbedPipeline.Pipeline.Enqueue | internal/app/embed_pipeline.go:124-140 | accepted exactly when the pipeline has started, id and body are not empty and the write succeeds; then persisted, and queued if fewer than 256 are there; a refused message changes nothing |
| EmbedPipeline.Pipeline.Process | internal/app/embed_pipeline.go:194-210 | for each pattern of succeeding and failing calls: indexed and cleared, or indexed with the row left, or a counted failure |
| EmbedPipeline.Pipeline.Fail | internal/app/embed_pipeline.go:212-241 | counter up by one; below the budget the row stays; at the budget row and counter go and the drop is counted, or the row stays if the tombstone fails |
| EmbedPipeline.Pipeline.IncrementAttempts | internal/app/embed_pipeline.go:216-221 | the count returned is the new one, and the row stays; or nothing happened |
| EmbedPipeline.Pipeline.PoisonDrop | internal/app/embed_pipeline.go:225-236 | the tombstone takes row and counter together, or nothing |
| EmbedPipeline.Pipeline.LoadBatch | internal/app/embed_pipeline.go:169-173 | all pending rows, or sixteen different ones of them; none when the load fails |
| EmbedPipeline.Pipeline.DrainBacklog | internal/app/embed_pipeline.go:184-186 | such a batch, and exactly its messages processed, in order |
| EmbedPipeline.Pipeline.ProcessNext | internal/app/embed_pipeline.go:184-186 | the next row of the batch is processed |
| EmbedPipeline.Pipeline.Turn | internal/app/embed_pipeline.go:158-189 | the head of the channel is taken and processed, or a batch of the backlog when the channel is empty |
| HybridSearch.AddRanking | internal/app/hybrid_search.go:99-107 | adds 1/(k + rank) per occurrence, to every id of the list and to no other |
| HybridSearch.CollectMeta | internal/app/hybrid_search.go:99-103 | the metadata of an id is that of its last keyword hit |
| HybridSearch.RankAll | internal/app/hybrid_search.go:109-123 | all scored ids, score descending and id ascending, whatever order the map is ranged over |
| HybridSearch.FuseRRF | internal/app/hybrid_search.go:92-128 | the beginning, as long as the limit lets it be, of the fusion of both rankings by exact scores, with k = 60 in place of a non-positive one |
| HybridSearch.LimitIsPrefix | internal/app/hybrid_search.go:124-127 | a positive limit gives the first hits of what no limit gives, as many as the limit or all of them |
| HybridSearch.BestAreKept | internal/app/hybrid_search.go:109-127 | whatever the limit leaves out has a lower score than whatever it keeps, or the same score and a greater id |
| HybridSearch.OrderMeans | internal/app/hybrid_search.go:109-123 | hits come by score descending, those of one score by id ascending, characters compared one by one |
| HybridSearch.EntryMeans | internal/app/hybrid_search.go:92-123 | the score of an id in duplicate-free rankings is the sum of 1 / (k + rank) over those that have it, and its metadata are those of its keyword hit |
| HybridSearch.Search | internal/app/hybrid_search.go:53-81 | keyword errors surface; without a dense answer the beginning of the keyword list, else of the fusion, as long as the limit, 20 by default, lets it be |
| HybridSearch.FusionUnique | internal/app/hybrid_search.go:109-123 | there is only one fusion of two rankings |
| HybridSearch.FusionHasDistinctIds | internal/app/hybrid_search.go:92-128 | no id is listed twice |
| HybridSearch.DominanceKept | internal/app/hybrid_search.go:92-128 | an id that both duplicate-free rankings put before another one comes before it |
| HybridSearch.KeywordOrderKept | internal/app/hybrid_search.go:92-128 | fusing with an empty vector list keeps the keyword order |
| HybridSearch.FallbackAgrees | internal/app/hybrid_search.go:61-81 | degrading to keyword search lists the ids that fusing with an empty answer would |
| MediaTransfer.ServeBounded | internal/app/method_media.go:153-220 | no response exceeds a chunk or the recorded size |
| MediaTransfer.ServeMeans | internal/app/method_media.go:153-220 | an error exactly for a negative offset or length, an unknown object and one over the cap; otherwise the bytes of the file from the offset on, as many as asked for, a chunk, the recorded size and the file allow, and the final flag exactly when they reach the recorded size |
| MediaTransfer.Base64Length | internal/app/method_media.go:212-219 | the length of the padded base64 form (section 4 of RFC 4648) |
| MediaTransfer.PayloadFitsFrame | internal/app/method_media.go:153-220 | a chunk's base64 form is at most 699052 bytes |
| MediaTransfer.HandleMediaFetchBytes | internal/app/method_media.go:153-220 | the buffer-filling handler answers as that, and as the window function that the transfer theorems use |
| MediaTransfer.ReadMediaAt | internal/app/method_media.go:229-247 | the buffer begins with the bytes at the offset and is otherwise unchanged; a short read is no error |
| MediaTransfer.FetchMedia | cmd/wa/cmd_media.go:456-496 | against any responses at all the loop ends and never writes more than the cap |
| MediaTransfer.TransferIs | cmd/wa/cmd_media.go:456-496 | against any responses at all: every answer but the last is a fitting chunk, neither final nor empty, and is written in order; the last one is a fitting final chunk, and is written, if and only if the transfer succeeds |
| MediaTransfer.TransferExact | cmd/wa/cmd_media.go:456-496 | for an object within the cap: success exactly when the file holds the recorded size, then exactly its bytes in max(1, ceil(size / 524288)) calls |
| MediaTransfer.OversizeRefused | internal/app/method_media.go:153-220 | an object over the cap is refused in one call, with nothing written |
| QuoteValidation.EnterPage | cmd/wad/history_methods.go:415-418 | the memo knows exactly the page's own messages |
| QuoteValidation.Validate | cmd/wad/history_methods.go:419-446 | one row: the uncached answer, with at most one lookup, and that a needed one not made before |
| QuoteValidation.StoredToWireValidated | cmd/wad/history_methods.go:405-448 | each row shows its quoted id exactly when that is short and plain and names a message of the same chat, in the page or the store, nothing when it quotes nothing, and a rejection otherwise; the lookups are exactly the distinct safe out-of-page keys, each once; it fails exactly on cancellation, a failing needed lookup or a missing store |
| QuoteValidation.OtherChatsIrrelevant | cmd/wad/history_methods.go:405-448 | what other chats hold, in page or store, never changes a row |
| Jid.JidRoundTrip | internal/domain/jid.go:80-125 | the printed form of an identifier parses back to it |
| Jid.ParsedIsValid | internal/domain/jid.go:80-180 | what parsing returns has a known server and a user part of its shape |
| Jid.FormsExactly | internal/domain/jid.go:80-125 | which `user@server` forms are accepted, server by server, and as what |
| Jid.PhonesExactly | internal/domain/jid.go:162-182 | anything without an `@` that has 8 to 15 digits is the phone number of those digits, in order, at s.whatsapp.net |
| Jid.JidIsPlain | internal/domain/jid.go:195-200 | printed identifiers use lower-case letters, digits, `-`, `.` and `@` only |
| Jid.ActionRoundTrip | internal/domain/action.go:67-91 | the name of an action parses back to it |
| Jid.ActionWords | internal/domain/action.go:67-91 | the nineteen action words and what they parse to |
| Allowlist.GrantedAllows | internal/domain/allowlist.go:78-91 | granting adds exactly the named permissions |
| Allowlist.RevokedAllows | internal/domain/allowlist.go:95-112 | revoking removes exactly the named permissions |
| Allowlist.Allowlist.Grant | internal/domain/allowlist.go:78-91 | the in-place loop computes that; nobody is listed with nothing |
| Allowlist.Allowlist.Revoke | internal/domain/allowlist.go:95-112 | the in-place loop computes that; an emptied entry goes |
| Allowlist.RevertAdd | cmd/wad/methods.go:87-96 | undoing a grant restores the exact prior policy, also when the grant overlaps it |
| Allowlist.RevertRemove | cmd/wad/methods.go:151-160 | undoing a removal restores the exact prior policy |
| Allowlist.LoadMeans | cmd/wad/allowlist.go:50-72 | a rule file loads exactly when every rule is sound, and then allows exactly what some rule says |
| Allowlist.LoadSaveIdentity | cmd/wad/allowlist.go:50-90 | loading what was saved gives the policy back, in whatever order the entries were written |
| Allowlist.ParseAllowlistBytes | cmd/wad/allowlist.go:50-72 | the rule-by-rule loop fills the policy the file stands for, or fails exactly when it stands for none |
| Allowlist.LoadAllowlist | cmd/wad/allowlist.go:34-46 | a loaded policy is the file's, the empty one for a missing file; there is none exactly when the file cannot be read or stands for none |
| Allowlist.SaveAllowlist | cmd/wad/allowlist.go:75-111 | succeeds exactly when the file can be replaced: then the file loads back as this policy; otherwise it is as it was |
| Allowlist.ParseAll | cmd/wad/methods.go:73-80 | every text must name an action; the actions come out in order |
| Allowlist.UndoGrant | cmd/wad/methods.go:87-96 | the revert closure of an add revokes what was granted and grants back what there was |
| Allowlist.UndoRevoke | cmd/wad/methods.go:151-160 | the revert closure of a removal grants back what there was |
| Allowlist.RevokeAll | cmd/wad/allowlist.go:146-148 | revoking entry by entry, in any order, empties the policy |
| Allowlist.GrantAll | cmd/wad/allowlist.go:149-151 | granting entry by entry, in any order, rebuilds the new policy |
| Allowlist.ReloadAllowlist | cmd/wad/allowlist.go:123-163 | done exactly when the file can be read and stands for a policy, and then memory is what the file says; otherwise memory is as it was |
| Allowlist.HandleAllowAdd | cmd/wad/methods.go:55-123 | the reply for every request and every pattern of failing accesses; done: exactly the grant, in memory and on disk, with its audit row; otherwise memory and disk as they were; a failed persist leaves the audit row, never a privilege without one |
| Allowlist.HandleAllowRemove | cmd/wad/methods.go:125-183 | the reply for every request and every pattern of failing accesses; done: exactly that identifier gone, in memory and on disk; otherwise memory and disk as they were |
| Allowlist.Serve | cmd/wad/methods.go:29-53 | one request is one step of the session specification and gets its answer, and every successful grant has its audit row |
| Allowlist.Session | cmd/wad/methods.go:29-183 | so does any sequence of add, remove, reload and file edits, with failures anywhere |
| Allowlist.SyncKept | cmd/wad/methods.go:55-183 | memory and disk agree after every session that began in agreement, unless the file was edited after the last successful call |
| Allowlist.PrivilegeHasOrigin | cmd/wad/methods.go:55-123 | nobody holds a privilege that was not there at the start, granted by a successful add, or written into the file |

## Left out

- MigrateAndRollBack: stated for runs in which no call fails and no sidecar vanishes;
  what happens otherwise is stated by `Apply` and `ApplyRollback` themselves.
- MigrationTx.AutoMigrate: starts from a tree that began as a 007 layout, a fresh
  install, or a tree that boots leave alone; other trees are not modelled.
- What the store behind the embedding pipeline does with its counter is an assumption
  where its interface is silent (`internal/app/embed_pipeline.go:28-40`, and the contract
  in `internal/app/porttest/pending_embedding_store.go:15-26` asks only for a count that
  grows by one and is cleared by MarkIndexed): a re-enqueue keeps the counter of the id,
  and a failure of an id whose row is gone is counted. The schema
  (`internal/adapters/secondary/sqlitehistory/migrate_v3_embeddings.go:36-42`) keeps the
  count in the row, and the store's SQL is not part of this model. `EmbedRows.EnqueueExactly` and
  the theorems about the counter rest on this; what is said of losing messages does not,
  and neither do the runs of `ReplacedRowDropped` and `SecondRowDropped`.
- Which calls into the embedder, the index, the stores, the audit log and the rule file
  succeed are parameters (`EmbedPipeline.Ports`, `Idempotency.World`, `Allowlist.Env`).
- EmbedPipeline.LoadBatch: the order in which the store returns rows is not modelled;
  any rows may come.
- Filesystem: a probe that answers tells the truth, no other process writes, rename is
  atomic, every file lies in a directory that exists; temporary files of atomic writes, permissions, ownership, fsync and the
  same-filesystem check (a parameter) are not modelled. Two `Mkdir` calls per profile
  directory are one `MkdirAll`.
- The WAL checkpoint is abstracted to its effect on files: it may rewrite a database and
  remove that database's sidecars. That it keeps what the database holds is SQLite's
  promise; a sidecar that it creates is not modelled.
- What the daemon writes into its files between boots, and the migration's `--dry-run`
  output.
- Interleaving inside one method: the dispatcher's and the worker's code run alone in
  the classes; what goroutines do to each other is proved of the state machines,
  whose actions are the atomic sections of that code.
- The event bridge's stream reader with its error backoff, tracing and metrics, and
  the translation of domain events.
- SHA-256 collisions: fingerprints are the canonical bytes themselves. Float printing
  and UTF-8 decoding: numbers are the texts Go prints, text is a sequence of code
  points, and encoding/json's own fast paths are not distinguished.
- Two concurrent idempotent calls on one key, and the in-memory store: calls are
  sequential and the SQLite store's rows are a map.
- The case-insensitive extraction of `idempotencyKey` from a payload: it is a parameter.
- The reconnect and the history backfill that a forced recovery spawns.
- Floating point in rank fusion: scores are reals. Whether a query can be embedded and
  what the retrievers answer are parameters.
- The HTTP route of the media fetch, hashing of the fetched bytes, sockets and
  deadlines.
- Overlapping allowlist calls with the file watcher, its debouncing, TOML as text (a
  file is absent, garbage, or a list of rules), and the locks: calls are sequential.
- Command-line commands, JSON-RPC, REST and MCP wiring, WhatsApp itself, rate limiting,
  profiles' names, health and token commands: they would only add easy members.
