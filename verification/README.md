# Verification of the AI CLI gateway's core

A Dafny 4.11 model of the parts of the gateway where a mistake is hard to see, with proofs about all
their inputs and runs. `dafny verify dfyconfig.toml` checks the whole project.

Where the program changes state step by step, the model does too: classes with the program's fields,
methods with its branches, loops with its exits. Everything the program cannot control (a system call
that fails, a cancelled context, a timer, an adapter's answer) is a free choice, so a contract holds for
every such choice. Concurrent components are state machines whose steps are the program's critical
sections, in any interleaving; the classes beside them prove that each critical section is such a step.

| files | component |
|---|---|
| `StoreDisk`, `StoreVolume`, `StoreFiles`, `StoreKey` | directories whose entries are durable only after a sync; staged files; the staged key |
| `ConfigStore`, `ConfigRestore`, `ConfigPublish`, `ConfigCommit` | the configuration commit: directories, key, staging, publication, undoing and cleanup |
| `ConfigSafety`, `ConfigDurability` | what every state of a commit keeps and each result state claims; what a crash may leave of them |
| `SupervisorParts`, `Supervisor` | one-shot leases, the operation counter, retained waits, shutdown |
| `TreeRemoval`, `RuntimeRoot`, `RuntimeRuns`, `RuntimeTree`, `RuntimeStale`, `RuntimeCleanup` | request directories and their records, shared by preparation, cleanup and the janitor |
| `Completions` | joining a process, its writer and its readers |
| `InitPlan`, `InitMerge`, `InitChecker`, `InitAccepted`, `InitAgreement`, `InitDecisions`, `SourceEdits`, `ModelAlias` | planning a configuration change, the independent final check and what it guarantees, collision decisions, text edits |
| `Decimal`, `Version`, `Health`, `Doctor`, `DoctorRun` | provider versions, the two sets of health rules, the diagnosis and its report validation |
| `GatewayOutcome`, `Gateway` | one request: the lease hand-over and the closed classification of failures |
| `WindowsAcl` | the ordered access check, done twice |
| `PathResolve` | symbolic links below the runtime root, with a budget |
| `Prompt` | length-prefixed prompt framing and its decoder |
| `Options`, `SetSizes` | an optional value; sizes of subsets |

Going right is proved as well as going wrong: each class that does input or output counts its faults, that
is, its failed calls, failed checks and cancellations. A contract about no fault since a call began says that
the call does its work; one about a single fault says what one failure can lead to at worst.

The decisions the program rests on are written twice: once as the program computes them, and once as a ghost
predicate that says the same of the inputs alone in another arrangement (by event, by field, by right). A lemma
proves that the two agree on every input, and the contracts of the main operations speak of the second.

How a power loss is modelled: each name carries the entry readers see and every entry it has had since
its directory was last synced; a crash may leave any of these, independently per name, and a file's bytes
are certain only once the file was synced. A directory that was made is pending until its parent is synced,
and a crash may drop any pending directory with everything below it. Below, a file that is durable is the one
thing its name can show as long as its directory is there. `ConfigCommit.Promised` collects what a
commit promises; it speaks of every state recorded on the way, so it covers a crash at any step, and
`ConfigDurability` says what the promises mean for the tree a restart finds.

## What the proofs found

- Directories a commit makes are not synced into their parents: only the last directory of a key or config
  is. After Committed a crash may therefore leave the new config without its key, or no config at all
  (`ConfigDurability.CommittedKeyLost`, and `ConfigDurability.NewKeyDirectoryMayVanish` for every commit with
  such a key directory). What a caller has to see to: each directory on the way exists and is durable
  before the commit, or is an entry of a directory the commit syncs. That condition is exact for a committed
  config and key (`ConfigDurability.CommittedLastsExactly`) and, with the config's own directories exempt, for
  key before config in every state of a run (`ConfigDurability.KeyBeforeConfigExactly`). When nothing is
  pending at the start it is a look at which directories exist (`ConfigDurability.KeyAnchoredWhen`,
  `ConfigDurability.AnchoredBeside`). The base of an existing config is safe in any case
  (`ConfigDurability.SafeKeepsBase`).
- An error-free cleanup can leave a temporary name behind: creating a private file opens it exclusively and
  then sets its mode, and when the second step fails nothing remembers the name; a staged file whose own
  unlink call failed is forgotten in the same way. `ConfigCommit.CleanUpMissesLeftover` is such a cleanup, and
  `ConfigSafety.CleanupTidies` shows that these names, called abandoned, are exactly the ones left.
- The plan check does not keep the temporary name of the key apart from the config
  (`ConfigCommit.TemporaryKeyMayBeTheConfig`). With a base, or without a new key, that does no harm, because the
  exclusive creation refuses the existing name. Without a base a commit that makes a key always fails, and a file may
  stay at the config path although the result is NotCommitted: `ConfigCommit.StagingSparesConfigExactly` gives
  the exact condition, `ConfigCommit.CommitOverConfig` what such a commit still keeps, and
  `ConfigCommit.CleanUpMissesOverwrite` one that ends without a cleanup error and with an empty config.
- RecoveryRequired says nothing of the backup and Indeterminate nothing of the config: a rename whose later
  check fails leaves the file marked temporary under its new name, and cleanup may then unlink it. In every
  other state cleanup owns only temporary names (`ConfigCommit.Attempt`).
- RecoveryRequired takes two faults: the one that stops the commit and one more while the backup is restored.
  Indeterminate can follow a single one, the check after the candidate's rename (`ConfigCommit.Commit`,
  `ConfigPublish.PublishCandidate`).
- RolledBack leaves the new backup in place; only the config is restored (`ConfigRestore.RollbackPublishedConfig`).
- The supervisor's counter is one too high for a moment: a lease is marked consumed before its operation ends
  (`Supervisor.ActiveMayLag`; `Supervisor.ActiveIsExact` says exactly when the count is right).
- The planner returns an unchanged plan without asking for models, and the final check then refuses it if a
  selected provider has none (`InitAgreement.UnchangedPlanMayBeRefused`, and `InitAgreement.MergedPlanAccepted`
  for the exact condition). Resolution asks first, so no resolved state meets this (`InitDecisions.ResolvedPlanPasses`).
- The diff compares lists as joined texts. That is exact for lists the decoder admits (`InitPlan.JoinInjective`)
  and not for others (`InitAgreement.UnvalidatedListsOverlooked`).
- The diagnosis puts no bound on a version's length where the gateway allows 32 bytes; this is the only
  difference between their rules (`Health.ValidatorsAgree`).
- A path is cleaned before its links are read (internal/process/root.go:78 and, once more,
  internal/process/root_unix.go:28), so ".." after a link leads elsewhere than pathname resolution does
  (section 4.13 of POSIX.1-2017); the paths this cannot happen to are exactly those with no ".." after a name
  (`PathResolve.CleaningIsHarmless`).

## Model

| member | source | states |
|---|---|---|
| `StoreDisk.SurelyMeansEveryCrash` | internal/configstore/commit.go:405-417 | Every directory tree a restart may find after a power loss shows given content at a name exactly when the entry of the name is certain and, for content that is there, no directory above it is pending |
| `StoreDisk.RenamedAndSynced` | internal/configstore/commit.go:554-596 | A synced file renamed to a name whose directory is then synced is the one entry that name can have after a crash |
| `StoreVolume.Volume.Create` | internal/configstore/noreplace_linux.go:12-37 | Exclusive creation: an existing name is left untouched; otherwise three outcomes, and a failed mode change leaves the new name behind and abandons it |
| `StoreVolume.Volume.Rename` | internal/configstore/noreplace_linux.go:39-80 | An atomic rename that happens entirely or not at all, never over an existing name when asked not to replace |
| `StoreVolume.Volume.SyncDirectory` | internal/configstore/commit.go:405-417 | A sync makes the current entries of a directory, files and directories, the only ones a crash can show; a platform without it reports success and promises nothing |
| `StoreVolume.Volume.MakeDirectory` | internal/configstore/create_unix.go:173-195 | One directory is made, or found, or a fault stops the step before or after the making; its own entry is pending until its parent is synced |
| `StoreVolume.Volume.MakeChain` | internal/configstore/create_unix.go:42-77 | Makes the missing directories on the way to one and no others, from the deepest that exists down, each pending; every state on the way only has more directories; without a fault the last one is there |
| `StoreVolume.Volume.MakePrivateDirectories` | internal/configstore/create_unix.go:15-40 | The same for a set of directories, shallower ones first |
| `StoreFiles.TransactionDirectory.Stage` | internal/configstore/commit.go:484-552 | A staged file is complete, synced and linked at a name that was free; a failure leaves every other name alone and its own name unlinked, owned or abandoned; with a free name and no fault it succeeds |
| `StoreFiles.TransactionDirectory.Fill` | internal/configstore/commit.go:512-552 | Filling touches only the new file; on failure the file is closed, and it is abandoned exactly when its own unlink call did not succeed, which is exactly when its name still shows |
| `StoreFiles.TransactionDirectory.Validate` | internal/configstore/commit.go:598-630 | A validated file is linked at its recorded name with exactly its recorded bytes, and without a fault every such file validates |
| `StoreFiles.TransactionDirectory.Publish` | internal/configstore/commit.go:554-596 | A publication renames or changes nothing; when the check after the rename fails the file is at its new name and still marked temporary |
| `StoreFiles.TransactionDirectory.Remove` | internal/configstore/commit.go:632-654 | Only the file itself is unlinked, never another file at the same name; the unlink call succeeding, and only that, frees the name, also when the check after it fails |
| `StoreFiles.TransactionDirectory.CleanupFile` | internal/configstore/commit.go:669-678 | Only a linked temporary is unlinked, and the file is closed in any case |
| `StoreFiles.TransactionDirectory.Cleanup` | internal/configstore/commit.go:680-700 | Every name that changed was owned and is gone; with no error no owned name is left; without a fault there is no error as long as each owned name still shows its own file |
| `StoreKey.StagedKey.ValidatePath` | internal/configstore/key.go:306-332 | A validated key path shows the staged key file, and none of the paths it must differ from does; without a fault nothing else is asked |
| `StoreKey.GeneratedKeyIs` | internal/configstore/key.go:73-79 | The payload a new key may have: 64 lower-case hexadecimal digits and a line end |
| `StoreKey.StagedKey.Fill` | internal/configstore/key.go:194-249 | A filled key file holds exactly the payload, synced, at its temporary name and at no path it must differ from; no directory entry has moved |
| `StoreKey.StagedKey.RemoveOwned` | internal/configstore/key.go:387-409 | Only the staged file is removed; success means the name is free |
| `StoreKey.StagedKey.Rollback` | internal/configstore/key.go:367-378 | Undoes the key under whichever name it has, once; without an error that name is free |
| `StoreKey.StagedKey.Finish` | internal/configstore/key.go:380-385 | Keeps a published key; an error for one that was never published or is already closed |
| `StoreKey.StagedKey.Publish` | internal/configstore/key.go:334-365 | The key reaches its target without replacing anything and its directory is synced, or it is rolled back; a clean rollback leaves both names as they were; with a free target, no second name and no fault it succeeds |
| `StoreKey.StagedKey.SettlePublished` | internal/configstore/key.go:358-364 | A key that has reached its target is checked and its directory synced, or it is taken back |
| `StoreKey.StageNewKey` | internal/configstore/key.go:133-250 | A staged key is a new synced file at a free temporary name in an existing directory, for a free target; an existing temporary name or a missing directory changes nothing at all; a clean failure changes no name unless it abandoned the temporary |
| `ConfigStore.ValidateBaseRevision` | internal/configstore/commit.go:419-458 | A base that validates is exactly the content at the config path |
| `ConfigStore.StageFiles` | internal/configstore/commit.go:205-250 | The candidate, the new backup, the rollback copy and the restore copy wait complete under four different names; the config and the old backup are untouched; a failure accounts for all four names; with those names free and no fault it succeeds |
| `ConfigRestore.PutBack` | internal/configstore/commit.go:775-792 | Puts earlier content back by renaming its copy over the published file, or by unlinking it; success is durable after the next sync |
| `ConfigRestore.MoveBack` | internal/configstore/commit.go:778-788 | The copy replaces the published file; when the check after the rename fails the copy keeps its temporary mark under the target name |
| `ConfigRestore.PutBackDurably` | internal/configstore/commit.go:775-796 | Earlier content is back and durable, or the target is the only name that may have become owned; every other name is untouched |
| `ConfigRestore.FailBeforeConfig` | internal/configstore/commit.go:756-820 | NotCommitted only with the earlier backup back in place, durably where directories sync; cleanup may own the backup name only in RecoveryRequired; the config is untouched; without another fault the backup is restored |
| `ConfigRestore.RollbackPublishedConfig` | internal/configstore/commit.go:822-868 | RolledBack only with the base back at the config path, durably, and the candidate file gone from it; otherwise Indeterminate, and only then may cleanup own the config name; without another fault the base is restored |
| `ConfigRestore.PutBackAccounted` | internal/configstore/commit.go:778-788 | Whatever undoing does, each temporary name stays untouched or owned by a staged file, and only the target can become an owned name |
| `ConfigPublish.MoveBackup` | internal/configstore/commit.go:256-275 | The backup move happens entirely or not at all, never over a backup that was absent; afterwards the backup holds the base |
| `ConfigPublish.PublishBackup` | internal/configstore/commit.go:256-298 | The commit goes on only with the base at the backup path, durably where directories sync; every other exit is NotCommitted with the backup as found, or RecoveryRequired, which takes two faults |
| `ConfigPublish.HoldBackup` | internal/configstore/commit.go:286-298 | A moved backup is synced with its directory, or the earlier one is restored |
| `ConfigPublish.UndoBackup` | internal/configstore/commit.go:300-351 | After the backup is published every failure restores it or reports RecoveryRequired; without a base there is nothing to restore |
| `ConfigPublish.MoveCandidate` | internal/configstore/commit.go:352-375 | The candidate replaces the config entirely or not at all, never an existing one when the base was absent |
| `ConfigPublish.SyncCandidate` | internal/configstore/commit.go:376-393 | Committed only with the candidate as the one possible entry of the config path and its directory synced; a failed sync ends RolledBack, or Indeterminate, which takes another fault |
| `ConfigPublish.PublishCandidate` | internal/configstore/commit.go:300-393 | The candidate was at the config path exactly in Committed, RolledBack and Indeterminate, with no directory synced in between; from the entry on either the config or the backup is not touched |
| `ConfigPublish.PreflightKey` | internal/configstore/preflight.go:136-172 | The key state is that of the key path and the plan; a fault gives none |
| `ConfigPublish.MatrixMeans` | internal/configstore/key.go:38-71 | The key matrix, read as which file is there, what the plan asks and what the payload is: nothing to do, reuse and creation each have one exact condition |
| `ConfigPublish.PublishKey` | internal/configstore/key.go:38-116 | A key is made exactly when its file is missing, the plan asks to ensure it and the payload is a generated key; a present key is kept exactly for an empty payload and a plan that inspects it or allows it; without a key path the payload must be empty; everything else is refused and changes nothing. Success means such a plan, with the temporary name free where a key is made, and without a fault such a plan succeeds |
| `ConfigPublish.StageAndBackUp` | internal/configstore/commit.go:197-298 | The commit goes on only with all files staged over the expected base and the base at the backup path, synced; until then nothing but the temporaries and the backup moves |
| `ConfigPublish.Transact` | internal/configstore/commit.go:197-393 | From staging to the final state: up to the last checkpoint only the backup and temporaries moved, and afterwards the config moved only once the backup held the base; without a fault it commits |
| `ConfigDurability.SafeKeepsBase` | internal/configstore/commit.go:266-300 | Crash safety: in every safe state an existing base is at the config path or at the backup path, for readers and in every tree a crash may leave |
| `ConfigDurability.SafeKeepsKey` | internal/configstore/commit.go:175-196 | Key before config: every tree a crash may leave in which there is a config and it may be the candidate also has the new key, provided each directory only the key needs was durable before the commit, or is an entry of the config directory and there is a base |
| `ConfigDurability.KeyBeforeConfigExactly` | internal/configstore/commit.go:168-196 | That condition is exact: over the states of a whole run that installed its candidate, the key is there after every crash that leaves a config exactly when it holds |
| `ConfigDurability.KeyAnchoredWhen` | internal/configstore/commit.go:168-196 | On a disk with nothing pending the condition says: the directory of the key existed, or is made directly in the config directory of an existing config, or lies on the way to a new config |
| `ConfigDurability.CommittedLastsExactly` | internal/configstore/commit.go:376-393 | A committed config, and a key made for it, survive every crash exactly when each directory on the way was durable before or is an entry of a directory the commit synced |
| `ConfigDurability.AnchoredBeside` | internal/configstore/commit.go:376-393 | On a disk with nothing pending a directory synced together with another one was there, or was made directly in that one, which was |
| `ConfigDurability.NewKeyDirectoryMayVanish` | internal/configstore/create_unix.go:153-200 | After every Committed with a key directory the commit made outside the config directory, some crash leaves the new config without its key |
| `ConfigDurability.CommittedKeyLost` | internal/configstore/create_unix.go:153-200 | Such a mutation, the disk its commit leaves, and the tree a restart finds |
| `ConfigSafety.UntouchedIsSafe` | internal/configstore/commit.go:157-197 | Every state before the config is touched is safe |
| `ConfigSafety.InstalledIsSafe` | internal/configstore/commit.go:353-381 | Once the backup holds the base and the key is in place, every state in which the config moves is safe |
| `ConfigSafety.AcceptableIs` | internal/configstore/preflight.go:174-228 | Which mutations the checks before the lock let through, said of the paths and the plan alone |
| `ConfigSafety.KeyRollbackIsSafe` | internal/configstore/commit.go:136-148 | Taking the key back is safe once no crash can show the candidate as the config |
| `ConfigCommit.AcquireLock` | internal/configstore/lock.go:17-36 | A config that is new gets the directories above it, and nothing else moves; over a base the config directory must exist |
| `ConfigCommit.PrepareDirectories` | internal/configstore/commit.go:160-180 | Only directories asked for are made, and success means that the base is the one expected |
| `ConfigCommit.KeyPhase` | internal/configstore/commit.go:160-195 | The checks, the private directories and the key come before anything else; only directories and key names changed, and a clean failure leaves the names as found or abandoned; the config path is touched only when it is the temporary name of a new key and there is no base, and then the phase fails |
| `ConfigCommit.Replace` | internal/configstore/commit.go:197-393 | The transaction proper: every recorded state safe, the final state sound, all temporary names accounted for; committed when nothing goes wrong |
| `ConfigCommit.Attempt` | internal/configstore/commit.go:157-393 | The commit up to its cleanup: every recorded state safe, the final state sound, and the names cleanup would unlink are temporaries, or the backup in RecoveryRequired, or the config in Indeterminate |
| `ConfigSafety.CleanupKeepsSound` | internal/configstore/commit.go:680-700 | Cleanup spoils no claim of the final state although it may unlink the backup in RecoveryRequired and the config in Indeterminate |
| `ConfigSafety.CleanupTidies` | internal/configstore/commit.go:680-700 | After an error-free cleanup the names that differ from the start are exactly the abandoned ones: those whose mode change failed or whose own unlink call did not succeed |
| `ConfigCommit.FailedModeChangeIsLeftBehind` | internal/configstore/noreplace_linux.go:12-37 | A commit whose first temporary failed its mode change is sound and safe, has nothing left that its cleanup could fail on, and differs from the start at that name |
| `ConfigCommit.CleanUpMissesLeftover` | internal/configstore/commit.go:122-135 | The cleanup of that commit reports no error when nothing else fails, and the file stays |
| `ConfigCommit.CleanUp` | internal/configstore/commit.go:122-135 | The deferred cleanup: still safe in every state, still sound, and the new key untouched |
| `ConfigCommit.SettleKey` | internal/configstore/commit.go:136-148 | The key is kept with Committed and Indeterminate and otherwise taken back; every state on the way is safe; without an error a key taken back is gone |
| `ConfigSafety.KeyRollbackKeepsSound` | internal/configstore/commit.go:136-148 | Taking the key back disturbs neither the config nor the backup |
| `ConfigCommit.CommitLocked` | internal/configstore/commit.go:114-393 | All promises of a commit for a valid mutation under the lock, over every failure and cancellation |
| `ConfigCommit.CommitOverConfig` | internal/configstore/key.go:175-194 | A commit that would stage its key under the free name of its own config ends NotCommitted; nothing but that name ever moves, and it is as found unless its rollback reported an error or the file was abandoned |
| `ConfigCommit.OverwriteIsUnsound` | internal/configstore/key.go:175-194 | After a failed mode change such a commit leaves an empty file as the config, against the claim of NotCommitted |
| `ConfigCommit.CleanUpMissesOverwrite` | internal/configstore/commit.go:122-135 | Its cleanup reports no error when nothing else fails; all that is promised of a refused commit holds with no rollback error, and the claim of NotCommitted does not |
| `ConfigCommit.Commit` | internal/configstore/commit.go:92-393 | For every mutation and disk: each state is safe; directories are only made, and only those asked for; each result state is a true claim about the disk; Indeterminate, RolledBack and a changed Committed occur exactly when the candidate was at the config path; a created key survives exactly in Committed and Indeterminate unless its rollback failed; after error-free cleanup only abandoned names remain, and none after Committed. The one exception is a new key staged under the name of its own config. Committed means a well-asked mutation of the expected disk whose key plan is allowed, and without a fault every such mutation is committed; a mutation that is not well asked changes nothing, a key plan that is not allowed makes directories at most, and an existing key stays as it is. RecoveryRequired takes two faults |
| `ConfigCommit.StagingSparesConfigExactly` | internal/configstore/key.go:175-194 | What an exclusive creation of the temporary key may leave is always an untouched config exactly when there is a base or the two names differ; otherwise a failed mode change breaks the claim of NotCommitted |
| `ConfigCommit.TemporaryKeyMayBeTheConfig` | internal/configstore/preflight.go:174-206 | For every free key path there is an acceptable mutation that stages the new key under the name of its config |
| `SupervisorParts.SupervisorLifecycle.Begin` | internal/process/supervisor.go:72-83 | An operation begins exactly when no shutdown has started, and is counted |
| `SupervisorParts.SupervisorLifecycle.Shutdown` | internal/process/supervisor.go:94-115 | Shutdown refuses new operations and passes exactly when none is active |
| `SupervisorParts.RuntimeLease.Consume` | internal/process/supervisor.go:578-606 | A lease is consumed exactly when it is prepared and held and the copy presented equals its ticket, made by this supervisor for this root |
| `SupervisorParts.AcceptsOwnTicket` | internal/process/supervisor.go:578-606 | A lease not yet consumed accepts exactly a copy equal to its own ticket; one that differs in any field is refused |
| `SupervisorParts.RuntimeLease.Finish` | internal/process/supervisor.go:144-160 | Only the call that ends the consumption releases the operation, and only once |
| `SupervisorParts.CompletionOwner.DeferWait` | internal/process/supervisor.go:188-214 | Each retained wait gets a fresh number and is pending |
| `SupervisorParts.CompletionOwner.Sweep` | internal/process/supervisor.go:216-255 | One pass takes every completed wait and returns exactly the unexpected errors among them |
| `Supervisor.StepKeepsInv` | internal/process/supervisor.go:365-518 | Every step of any call keeps the invariant of counter, leases, waits and drains |
| `Supervisor.NoCallIsStuck` | internal/process/supervisor.go:94-255 | Every call under way can take a step; only one that waits for quiet may have to wait, and it may give up |
| `Supervisor.RunKeepsInv` | internal/process/supervisor.go:365-518 | The invariant holds after every interleaving of any number of calls |
| `Supervisor.EndIsNeverIdle` | internal/process/supervisor.go:85-92 | An operation never ends with the counter at zero |
| `Supervisor.ActiveIsExact` | internal/process/supervisor.go:61-160 | The counter is preparations in flight plus leases not yet consumed exactly when no call stands between marking its lease consumed and ending its operation |
| `Supervisor.ActiveMayLag` | internal/process/supervisor.go:144-160 | A run in which the counter is one although nothing is prepared and no lease is unconsumed |
| `Supervisor.ConsumedAtMostOnce` | internal/process/supervisor.go:578-606 | In every run each lease is consumed at most once, whichever copies of it are presented |
| `Supervisor.PendingNeedsConsumer` | internal/process/supervisor.go:423-497 | Pending waits exist only while some lease is being consumed |
| `Supervisor.IdleIsQuiescent` | internal/process/supervisor.go:94-115 | A shut-down supervisor with nothing active has no preparation, lease, release or pending wait |
| `Supervisor.ShutdownIsFinal` | internal/process/supervisor.go:503-518 | After a shutdown has passed, no lease, operation or pending wait exists in any later state, whatever is called |
| `Supervisor.ShutdownDrainFindsNothing` | internal/process/supervisor.go:503-518 | The drain after a passed shutdown ends at once and reports nothing |
| `Supervisor.ReportedOnce` | internal/process/supervisor.go:216-255 | Every unexpected wait error is still pending or in the report of exactly one drain |
| `Supervisor.SweepReports` | internal/process/supervisor.go:216-255 | A pass adds to its own drain's report exactly the failures it removes, and to no other report |
| `Supervisor.ReportsStand` | internal/process/supervisor.go:216-255 | No other step changes what a drain reports |
| `TreeRemoval.FileSystem.RemoveContents` | internal/process/root.go:1623-1678 | Only entries below the directory go; success means nothing is left below it, and without a fault it succeeds; links are never followed |
| `TreeRemoval.FileSystem.RemoveOpened` | internal/process/root.go:1758-1790 | Success removes exactly the subtree; failure removes only entries inside it; without a fault it succeeds |
| `TreeRemoval.FileSystem.RemoveEntry` | internal/process/root.go:1623-1678 | A single removal never takes a directory that has entries |
| `TreeRemoval.FileSystem.RenameDirectory` | internal/process/root.go:1792-1815 | A directory moves within its parent with everything in it, or nothing changes; never over an existing name |
| `TreeRemoval.ChildOnTheWay` | internal/process/root.go:1623-1678 | Whatever lies below a directory lies at or below one of its listed children |
| `TreeRemoval.MovedThenGone` | internal/process/root.go:457-521 | Moving a tree to a free name beside it and removing it there removes exactly that tree |
| `RuntimeRoot.StepKeepsInv` | internal/process/root.go:246-623 | Every critical section of Prepare, Cleanup and Janitor keeps table, names, generations and locks consistent |
| `RuntimeRoot.RunForward` | internal/process/root.go:246-623 | Over every interleaving record identities never change and record states only move forward |
| `RuntimeRuns.ActiveEntryKept` | internal/process/root.go:246-623 | A record active before and after any run was active throughout it, with its own directory at its request name the whole time |
| `RuntimeRuns.DeactivatedByOwnCleanup` | internal/process/root.go:460-521 | A record that stops being active in a run does so in the first step of a cleanup that holds it, and that cleanup locked it with a handle of its own id and generation, in this run unless it held it when the run began |
| `RuntimeRuns.ForeignEntryKept` | internal/process/root.go:246-623 | No run makes, changes or removes an entry outside the two closed namespaces |
| `RuntimeRoot.ActiveIsThere` | internal/process/root.go:246-372 | In every reachable state an active record has its directory at its request name and is the one its id stands for |
| `RuntimeRoot.OnlyOwnCleanupDeactivates` | internal/process/root.go:460-521 | Only a cleanup that locked this very record ends its activity: never the janitor, never another handle |
| `RuntimeRoot.LockNeedsOwnHandle` | internal/process/root.go:783-810 | A record is locked for cleanup only through a handle of its own generation, while its id is its own or it is already removed |
| `RuntimeRoot.StaleHandleRefused` | internal/process/root.go:783-810 | After an id was retired and prepared again every handle of the earlier record is refused without effect |
| `RuntimeRoot.RetiredCleanupDoesNothing` | internal/process/root.go:460-521 | While the id is free an earlier handle is let through and its cleanup changes nothing |
| `RuntimeRoot.CleanupRemovesExactly` | internal/process/root.go:1406-1450 | A successful removal takes the quarantined directory of the record and no other entry |
| `RuntimeRoot.EntriesKept` | internal/process/root.go:1552-1828 | No step removes an entry outside the two closed namespaces, nor the directory of a record that stays active |
| `RuntimeCleanup.Root.Prepare` | internal/process/root.go:246-372 | Preparing adds one active record with a fresh generation, an empty directory and a handle that is honoured, exactly for a proper id nothing is known of and nothing is left of; a failed preparation may leave its directory behind; a permitted one without a fault succeeds |
| `RuntimeCleanup.Root.LockRecord` | internal/process/root.go:783-810 | A handle is honoured exactly when it is the one made for its record and its id still is that record's own, or is free with the record removed |
| `RuntimeCleanup.Root.QuarantineRecorded` | internal/process/root.go:1792-1828 | The recorded directory moves to its quarantine name, which was free, with everything in it, or nothing moves; a failed check after the rename keeps the new state |
| `RuntimeCleanup.Root.RemoveRecorded` | internal/process/root.go:1406-1450 | Success takes exactly the quarantined name and the tree under it, which still was the recorded directory; failure takes only entries inside it; names and tree stay in step |
| `RuntimeTree.RemoveTree` | internal/process/root.go:1758-1790 | Removing an entry of the root directory with everything in it: success takes exactly that tree, failure only entries inside it, and the names stay the first level of the tree |
| `RuntimeCleanup.Root.RetireRecord` | internal/process/root.go:812-823 | The id is freed only if it still stands for this removed record |
| `RuntimeCleanup.Root.LockStale` | internal/process/root.go:836-851 | A name whose record is live is left alone, both locks released |
| `RuntimeCleanup.Root.Sweep` | internal/process/root.go:1552-1621 | A directory without a record, or the recorded one of a record whose cleanup has begun, goes with everything in it and its record, or only entries inside it go; anything else stays as it is; without a fault the first happens |
| `RuntimeCleanup.Root.JanitorEntry` | internal/process/root.go:557-606 | One janitor entry: a directory without a record, or the recorded directory of a record whose cleanup has begun, goes with exactly its tree and its record, without a fault always; everything else stays, and is an error unless it shows a runtime in use |
| `RuntimeCleanup.Root.Janitor` | internal/process/root.go:525-623 | A pass over all names takes only directories of ids with such a directory, with everything in them; without a fault every one of these goes, and on a root just opened no directory of the two namespaces is left; a pass without an error leaves only runtimes in use there |
| `RuntimeStale.ProperIds` | internal/process/root.go:918-934 | A request id is 8 to 80 characters, each an ASCII letter, a digit, an underscore or a hyphen |
| `RuntimeStale.PassGoesOn` | internal/process/root.go:555-617 | A pass that takes one more stale entry still has taken only directories of ids with one, with their records, and changed nothing else |
| `RuntimeCleanup.Root.Cleanup` | internal/process/root.go:457-521 | A cleanup with nothing in between: success removes exactly the recorded tree, wherever it was, and frees its id, or finds it removed already; failure changes nothing outside the two places the record can be at; a handle that is not honoured changes nothing; without a fault every honoured one succeeds whose quarantine name is not taken |
| `Completions.TerminalState.Commit` | internal/process/runner_unix.go:40-68 | Only the first observation decides the stop reason |
| `Completions.TerminalState.CommitAll` | internal/process/runner_unix.go:40-68 | Whatever is observed later, the reason is that of the first event |
| `Completions.NormalExitMeansNothingElse` | internal/process/runner_unix.go:40-68 | Every stop reason stands for its own event, seen with none of those before it; a normal exit for a wait with nothing else |
| `Completions.CompletionState.AcceptNext` | internal/process/runner_unix.go:723-774 | Each round of the select loop receives from exactly one channel not yet seen |
| `Completions.CompletionState.JoinPipeOwners` | internal/process/runner_unix.go:809-822 | With the pipe ends closed the writer and both readers are joined |
| `Completions.CompletionState.Expire` | internal/process/runner_unix.go:723-774 | After the deadline the wait is taken or handed over, never both and never neither |
| `Completions.CompletionState.Join` | internal/process/runner_unix.go:723-774 | For every order of arrival and every deadline writer, stdout and stderr are joined, the wait is recorded here or handed to the owner, and the returned errors are exactly those delivered plus those of the deadline |
| `Completions.BoundedUnverifiedStartCleanup` | internal/process/runner_unix.go:525-560 | After a start that could not be verified the wait is consumed once or handed over once, and every failure is reported |
| `InitPlan.PlanProviders` | internal/initconfig/merge.go:178-227 | Patched providers are updated or added, all others kept; the diff has one entry for each patch with the exact values; collisions are the replaced entries |
| `InitPlan.PlanGateway` | internal/initconfig/merge.go:254-291 | The gateway source changes exactly when the patch differs, and its diff shows the values before and after |
| `InitPlan.PlanModels` | internal/initconfig/merge.go:303-368 | Existing models keep order, creation time and everything unmapped; new mappings are appended in order; diff and collisions are exact |
| `InitPlan.JoinInjective` | internal/initconfig/merge.go:229-252 | On lists without commas the joined text the diff compares determines the list |
| `InitMerge.SetKeyPlan` | internal/initconfig/merge.go:1020-1032 | No key file means no key work, the same key file as before is inspected, another one is ensured, and it may exist already exactly when the flags name it |
| `ModelAlias.ValidAliasIs` | internal/doctor/output.go:267-287 | An alias is 1 to 128 letters, digits, dots, underscores, colons and hyphens, the first a letter or digit |
| `InitMerge.PlanMerge` | internal/initconfig/merge.go:81-176 | A plan returned without an error is a full merge with models for the selected providers and only authorised collisions; a collision error means an unauthorised one |
| `InitAgreement.MergedPlanAccepted` | internal/initconfig/interactive.go:313-348 | The final check accepts a merged plan exactly when the plan changes something or the selected providers already have models |
| `InitAgreement.FreshPlanAccepted` | internal/initconfig/interactive.go:313-348 | The final check accepts every fresh plan |
| `InitAccepted.AcceptedMeans` | internal/initconfig/interactive.go:314-350 | Whoever made the plan: an accepted one has exactly one entry for each thing asked for, each showing the final values; added entries show everything, unchanged ones nothing and replaced ones only what differs; replacements are approved one by one with the same fields; the configuration has what is desired, and for a new installation nothing else; the key work is about its key file |
| `InitAgreement.UnchangedPlanMayBeRefused` | internal/initconfig/interactive.go:313-348 | A concrete unchanged plan that the planner returns and the final check refuses |
| `InitAgreement.MergedEntriesValid` | internal/initconfig/merge.go:229-252 | Every diff entry of a merge is one the diff validation accepts, and no two entries are about the same thing |
| `InitAgreement.MergedEntryFits` | internal/initconfig/interactive.go:377-596 | Every diff entry was asked for, shows the final values, and has the shape of its kind |
| `InitAgreement.MergedCollisionsConverge` | internal/initconfig/interactive.go:598-641 | Authorised collisions of a merge correspond one to one to the replaced entries |
| `InitAgreement.MergedKeyPlanValid` | internal/initconfig/interactive.go:677-707 | The planned key work agrees with what the diff says of the key file |
| `InitAgreement.MergedMatchesDesired` | internal/initconfig/interactive.go:643-666 | The merged configuration has every desired value |
| `InitAgreement.UnchangedKeepsConfig` | internal/initconfig/merge.go:81-176 | A plan that reports no change has the configuration it started from |
| `InitAgreement.UnvalidatedListsOverlooked` | internal/initconfig/merge.go:229-252 | Without the decoder's limits on lists, a comparison of joined texts can overlook a change |
| `InitAgreement.MergeIsExact` | internal/initconfig/merge.go:178-368 | Managed values become the desired ones; every other provider, setting and model stays, in its place; additions come last |
| `InitAgreement.MergedStaysValid` | internal/initconfig/merge.go:81-176 | Merging valid inputs gives a valid configuration |
| `InitAgreement.PlanningIsIdempotent` | internal/initconfig/merge.go:178-368 | Planning the same state on its own result changes nothing and collides with nothing |
| `InitDecisions.ApplyCollisionDecisions` | internal/initconfig/interactive.go:898-944 | The options change exactly when there is one decision for every collision, and then by each decision in turn |
| `InitDecisions.DecideAllDecides` | internal/initconfig/interactive.go:946-983 | What a set of decisions comes to, independent of its order: kept providers lose their inputs, kept models their mappings, replacements are approved |
| `InitDecisions.EveryCollisionDecided` | internal/initconfig/interactive.go:898-944 | As many different decisions as collisions, all about collisions, leave no collision undecided |
| `InitDecisions.DecisionsStayValid` | internal/initconfig/interactive.go:940-943 | Any complete set of decisions leaves valid options valid |
| `InitDecisions.PlannedCollisionsFromOptions` | internal/initconfig/merge.go:178-368 | A plan collides only on selected providers and mapped aliases |
| `InitDecisions.CollisionsConverge` | internal/initconfig/interactive.go:882-944 | If the decided options resolve again, the new plan collides exactly where a replacement was chosen, and every collision is authorised |
| `InitDecisions.ResolveNonInteractive` | internal/initconfig/resolve.go:15-73 | A given executable, configuration home or authentication is what the patch has, one not given is the existing value; entrypoint and arguments follow the platform, credential names the authentication, and the gateway patch its own flag; it fails exactly when some selected provider cannot be resolved so or owns no alias |
| `InitDecisions.ProviderResolves` | internal/initconfig/resolve.go:77-197 | A provider is resolved exactly when each value is given in an allowed form or exists, and to the one patch these values make |
| `InitDecisions.GatewayResolves` | internal/initconfig/resolve.go:228-260 | The gateway patch of every flag and existing configuration, field by field |
| `InitDecisions.AliasesOwned` | internal/initconfig/resolve.go:199-226 | A provider owns an alias after the mappings exactly when one is mapped to it, or one it has is not mapped |
| `InitDecisions.ResolvesExactly` | internal/initconfig/resolve.go:15-73 | The desired state of a resolution is exactly the one flags and configuration call for, and there is one exactly when every selected provider can be resolved |
| `InitDecisions.SelectedProvidersHaveModels` | internal/initconfig/resolve.go:199-226 | True exactly when each selected provider owns a model of the merged list |
| `InitDecisions.KeptResolvesToExisting` | internal/initconfig/resolve.go:129-197 | A provider whose inputs were dropped resolves to its existing values |
| `InitDecisions.ResolvedPlanPasses` | internal/initconfig/resolve.go:49-51 | Every plan the planner returns for a resolved state passes the final check |
| `SourceEdits.SortSorts` | internal/initconfig/merge.go:940-945 | The edits are sorted by descending start, longer first |
| `SourceEdits.SortIsStable` | internal/initconfig/merge.go:940-945 | Edits of the same range keep their order |
| `SourceEdits.ApplySourceEdits` | internal/initconfig/merge.go:936-959 | The in-place loop succeeds exactly when every edit is in bounds and no neighbours overlap, and then equals one simultaneous splice of the original |
| `SourceEdits.UntouchedByteKept` | internal/initconfig/merge.go:936-959 | Every byte outside the edited ranges is kept, shifted by the growth of the edits before it |
| `SourceEdits.IdentityEdits` | internal/initconfig/merge.go:936-959 | Edits that put back what they cover change nothing |
| `Decimal.ParseFormat` | internal/provider/version.go:64-75 | Printing any 64-bit number and parsing it gives it back |
| `Version.ConsumeDigits` | internal/provider/version.go:151-157 | Stops at the first character that is no digit |
| `Version.FindVersionCores` | internal/provider/version.go:87-121 | Finds all version cores of a text in order |
| `Version.TripleHasOneCore` | internal/provider/version.go:87-121 | Three digit groups with two dots hold exactly one core, however their digits run |
| `Version.WidthIs` | internal/provider/version.go:45-50 | The bytes a character takes in UTF-8, by the ranges of section 3 of RFC 3629 |
| `Version.ParsesExactly` | internal/provider/version.go:45-149 | A version is read exactly from an output of at most 4096 bytes with one core, nothing beside it that would make it part of something longer, and three 64-bit numbers |
| `Version.RangeIs` | internal/provider/version.go:32-43 | A range has its lower bound and not its upper one, in the order of the first number that differs |
| `Version.ParseText` | internal/provider/version.go:25-77 | Parsing the print of any version with 64-bit components gives the version back |
| `Version.ParsesToItself` | internal/provider/version.go:45-77 | A text that parses to itself is exactly the print of a 64-bit version |
| `Version.CanonicalVersionIs` | internal/core/types.go:210-249 | A canonical version is the empty text or the print of a 64-bit version in at most 32 bytes |
| `Health.ValidatorsAgree` | internal/gateway/gateway.go:569-674 | For every row and range the gateway accepts exactly what the diagnosis accepts among versions of at most 32 bytes |
| `Health.ProblemsAreAlphabetical` | internal/doctor/output.go:582-589 | The order of the problem codes is the order of their texts |
| `Health.ReadyCapabilitiesAre` | internal/doctor/output.go:548-580 | Which provider offers which capability, capability by capability |
| `Health.CapabilitiesAreAlphabetical` | internal/doctor/output.go:548-590 | The capability ranks follow the texts |
| `Doctor.ValidateProviderRows` | internal/doctor/output.go:298-331 | The single pass with its two flags accepts exactly the lists that are all skipped, all judged, or judged up to a probe after which cleanup failed |
| `Doctor.CoreVerdictIs` | internal/doctor/output.go:120-209 | The seven checks fit exactly when they come in order with their own codes, each judged when those it stands on passed; what that says of the provider rows |
| `Doctor.SkippedSaysNothing` | internal/doctor/output.go:349-355 | A skipped row says nothing but its provider |
| `Doctor.CanonicalRowAccepted` | internal/doctor/doctor.go:791-846 | Whatever an adapter answers, its row is one the report validation accepts as probed |
| `Doctor.SensibleAnswerKept` | internal/doctor/doctor.go:791-846 | An answer that makes sense is reported as given: any acceptable row that repeats it, up to order and repetition, is the result |
| `Doctor.RepeatedOrMalformed` | internal/doctor/doctor.go:791-846 | Nothing is made up: the row repeats the answer or is the malformed one |
| `Doctor.ResolvedRowAccepted` | internal/doctor/doctor.go:727-788 | Every row of a provider is acceptable, and is a finding made before the probe exactly when there was no probe |
| `Doctor.ProofIsNoPreprobe` | internal/doctor/output.go:357-416 | A probed row is never skipped nor a finding made before the probe |
| `Doctor.ResolveProvider` | internal/doctor/doctor.go:663-789 | The row lists exactly one problem, with its own evidence and no evidence of one looked for before it, and a missing authentication exactly for a missing credential; without any evidence the provider was probed and the row is its sensible answer or says that nothing is known |
| `Doctor.FindingIs` | internal/doctor/doctor.go:742-753 | The finding before a probe is the first problem, in the stated order, there is evidence of, and there is none exactly without any evidence |
| `DoctorRun.ReportBuilder.SetCore` | internal/doctor/doctor.go:1172-1179 | Checks are set first and once |
| `DoctorRun.NamesAreAlphabetical` | internal/doctor/output.go:220-245 | Providers are reported in the order of their texts |
| `DoctorRun.ReportBuilder.SetProviders` | internal/doctor/doctor.go:1181-1191 | Rows are set second and once, in name order |
| `DoctorRun.ReportBuilder.CompleteReport` | internal/doctor/doctor.go:1193-1204 | Completing succeeds exactly in order and for a valid report |
| `DoctorRun.FinishDiagnosis` | internal/doctor/doctor.go:1086-1115 | A diagnosis is built exactly for checks and rows that fit together and an authentication that agrees with its check |
| `DoctorRun.FinishedIsReportable` | internal/doctor/doctor.go:532-617 | However far the run got, its checks with the last one decided and its rows fit together |
| `DoctorRun.FinishRun` | internal/doctor/doctor.go:532-617 | Ending a run always builds a valid report with the given checks and rows; the last check fails exactly when some cleanup did; the root is handed over exactly when asked for, nothing failed and the caller is still there, and closed once otherwise |
| `DoctorRun.ResolveProviders` | internal/doctor/doctor.go:330-360 | Each provider up to the one whose probe failed cleanup has its own row, and the rest are skipped |
| `DoctorRun.Run` | internal/doctor/doctor.go:215-375 | Every report is valid; each check has its own name, passes exactly when the answers from outside say so, is judged exactly when the run got to it, and has the code of its own failure; the row of each provider got to states the first problem there is evidence of or its answer; without an error the root is handed over exactly when all checks pass, and an acquired root is closed or handed over once |
| `GatewayOutcome.AppliedIsValid` | internal/gateway/gateway.go:787-851 | Applying what a run reports keeps metadata that an outcome accepts |
| `GatewayOutcome.OutcomeIs` | internal/core/types.go:136-230 | An outcome is made exactly of a canonical cause and of metadata whose numbers are not negative and whose texts each stand for something a run reports |
| `GatewayOutcome.AppliedIsRecorded` | internal/gateway/gateway.go:787-851 | A credible report, and no other, is applied, and every exit category, stop reason and stop action is recorded for its own event only |
| `GatewayOutcome.ClassifiedIsSafe` | internal/gateway/gateway.go:853-945 | Every classified cause is one an outcome may expose |
| `GatewayOutcome.ExecutionClassified` | internal/gateway/gateway.go:853-899 | Each cause of an execution error, and each live problem, for its own event and no other, with closing, cancellation and deadline told apart |
| `GatewayOutcome.SchedulerClassified` | internal/gateway/gateway.go:920-945 | Each cause of a scheduler error for its own event and no other |
| `GatewayOutcome.CleanupIsConsistent` | internal/gateway/gateway.go:787-898 | A run is classified as a failed cleanup exactly when its metadata says so and the provider is degraded for it |
| `GatewayOutcome.NormalizedIsValid` | internal/gateway/gateway.go:970-974 | Recording a shutdown as the stop reason keeps metadata valid |
| `GatewayOutcome.Judged` | internal/gateway/gateway.go:313-345 | A run is accepted exactly with no panic, no parse error, exit code 0 and a valid structured text of 1 to the allowed number of bytes; each cause of a refusal has its own exact condition |
| `Gateway.EnlistKeepsSorted` | internal/gateway/gateway.go:484-494 | Adding a live problem keeps the list sorted without repeats |
| `Gateway.ProviderRuntime.Degrade` | internal/gateway/gateway.go:484-494 | A live problem makes the provider not ready and is listed once; no problem changes nothing |
| `Gateway.Begin` | internal/gateway/gateway.go:220-233 | An accepted provider row that is ready, and valid queue statistics, give a request valid state to begin with |
| `Gateway.Request.ExecuteBuilt` | internal/gateway/gateway.go:286-345 | The runtime is executed once. A credible report is recorded, every text for its own event; an error gives the cause it stands for and lists the live problem it is evidence of, and one that stands for nothing breaks the attempt, as does a report that cannot be |
| `Gateway.Request.JudgeResult` | internal/gateway/gateway.go:313-345 | The first thing wrong with a finished run is the recorded cause, and success is recorded exactly when nothing is |
| `Gateway.Request.DiscardUnused` | internal/gateway/gateway.go:271-284 | A discarded runtime that cannot be removed overrides every other outcome with a failed cleanup |
| `Gateway.Request.Leased` | internal/gateway/gateway.go:252-345 | A prepared runtime goes to exactly one of Execute and Discard, also when building the command panics |
| `Gateway.Request.Work` | internal/gateway/gateway.go:235-346 | The same for the whole work, whichever time stamps are read |
| `Gateway.Request.Conclude` | internal/gateway/gateway.go:348-383 | The answer is the one the attempt and the scheduler error call for, exactly: success, the cause the error stands for with its metadata, the recorded cause, or an internal error |
| `Gateway.Request.Respond` | internal/gateway/gateway.go:229-383 | However often the scheduler runs the work and whatever it returns, every prepared runtime was executed or discarded exactly once, and the answer is the one the final attempt and the returned error call for: each scheduler error has its own cause, each such cause answers only its own error, and closing, cancellation and deadline are told apart |
| `WindowsAcl.EntryDecides` | internal/doctor/path_acl_policy.go:214-246 | One entry of the ordered check decides exactly the rights it concerns and leaves the rest to the later entries |
| `WindowsAcl.PolicyRights` | internal/doctor/path_acl_policy.go:328-377 | Each of the six policies asks for exactly the rights it needs and forbids exactly those that are dangerous to it, right by right, with its own kind of object and owner |
| `WindowsAcl.Collect` | internal/doctor/path_acl_policy.go:225-246 | The ordered pass succeeds exactly when the first applicable entry of every required right allows it |
| `WindowsAcl.EvaluateAcl` | internal/doctor/path_acl_policy.go:191-285 | The evaluation succeeds exactly with complete evidence of one unchanged object of the right kind and owner, every entry in order, no dangerous right given by an entry in effect to anyone untrusted, and each wanted right allowed by the first entry that decides it (section 2.5.3.2 of MS-DTYP) |
| `WindowsAcl.SecureIs` | internal/doctor/path_acl_policy.go:191-247 | The check on masks, as the evaluation computes it, and the statement about single rights and entries agree on every access list and policy |
| `WindowsAcl.GrantsIs` | internal/doctor/path_acl_policy.go:416-455 | Expanding a mask gives exactly its own rights and those its generic rights stand for |
| `WindowsAcl.ValidSidIs` | internal/doctor/path_acl_policy.go:300-319 | A security identifier is "S" followed by two or more groups of digits, each after a dash |
| `WindowsAcl.SnapshotIs` | internal/doctor/path_acl_policy.go:249-298 | Which evidence an evaluation accepts, for each policy |
| `WindowsAcl.EvaluateKeyAcl` | internal/gatewaykey/file_windows.go:524-569 | The one-pass evaluation of the key decides the same kind of statement |
| `WindowsAcl.ExpansionsAgree` | internal/gatewaykey/file_windows.go:589-607 | The two expansions of generic rights give the same rights for every mask |
| `WindowsAcl.KeyCheckIsPathCheck` | internal/gatewaykey/file_windows.go:524-569 | On well-formed evidence the key check is the credential check for a leaf with a protected list and the private-ancestor check for an ancestor |
| `PathResolve.ValidateAlias` | internal/process/root_unix.go:90-133 | Unless an inspection fails, a link is trusted exactly when it and all directories above it are root-owned and none of these is writable by others without the sticky bit |
| `PathResolve.Compose` | internal/process/root_unix.go:37-78 | Reading one path after another is reading their concatenation, links and budget included |
| `PathResolve.LinkReadWhereItIs` | internal/process/root_unix.go:51-78 | A relative target is read from the directory that holds the link, an absolute one from the root |
| `PathResolve.Canonicalize` | internal/process/root_unix.go:27-80 | The loop ends, and with the directory the cleaned path names when each link is read as its whole target (section 4.13 of POSIX.1-2017), or with the first obstacle on the way; a failing inspection is the only other outcome |
| `PathResolve.CanonicalIsFixed` | internal/process/root_unix.go:27-80 | A canonical path has no link on it, and canonicalizing it again changes nothing and follows no link |
| `PathResolve.TrustOnlyRefuses` | internal/process/root_unix.go:65-67 | Asking for trust changes no answer: it only refuses |
| `PathResolve.MoreLinksSamePlace` | internal/process/root_unix.go:68-71 | The bound on links only refuses: a larger one reaches the same place through as many links |
| `PathResolve.CleaningIsHarmless` | internal/process/root_unix.go:28-36 | Cleaning first keeps the meaning of a path on every tree exactly when no ".." comes after a name in it |
| `PathResolve.CleaningCanMislead` | internal/process/root_unix.go:28-36 | A concrete tree on which the cleaned path names another directory |
| `Prompt.WriteSection` | internal/provider/prompt.go:83-87 | A section is its name, the length of its value, the value and a line end |
| `Prompt.BuildPrompt` | internal/provider/prompt.go:29-49 | A prompt is built exactly for a known delivery and format and a schema that can be encoded where it is sent along, as the frame of its parts; the contract is the fixed plain text exactly for plain text, the fixed file text exactly for a schema file, and otherwise holds the schema itself |
| `Prompt.ContractTells` | internal/provider/prompt.go:51-81 | The three contracts are told apart, and there is one exactly for a format that can be delivered |
| `Prompt.DecodeFrame` | internal/provider/prompt.go:29-49 | Decoding recovers instructions, input and contract from every prompt, whatever text they contain |
| `Prompt.FramesDiffer` | internal/provider/prompt.go:29-49 | Different parts never give the same prompt |
| `Prompt.FrameDecode` | internal/provider/prompt.go:29-49 | The decoder accepts nothing but prompts |
| `Prompt.NotAbsent` | internal/provider/prompt.go:29-49 | Present instructions are never mistaken for absent ones |

## Left out

- ConfigCommit.Commit: promises less when a new key would be staged under the free name of its own config (see `ConfigCommit.CommitOverConfig`), because the claim of NotCommitted is false there.
- ConfigDurability.SafeKeepsKey: asks that no directory which only the key needs can be dropped, because the program does not sync the parents of directories it makes.
- ConfigSafety.CleanupTidies: promises that nothing but the abandoned names remains, not that none remains, because the code forgets a name whose mode change or own unlink failed.
- ConfigDurability.SafeKeepsBase: without directory sync it speaks of running readers only, because such a platform makes no promise about crashes.
- Supervisor.ActiveIsExact: equality holds outside the two steps that end a lease, because the code marks the lease before it lowers the counter.
- RuntimeCleanup.Root.Janitor: states a pass with nothing between its entries, because what other calls may do in between is the subject of the state machine (`RuntimeRuns.ActiveEntryKept`).
- InitAgreement.MergedPlanAccepted: the final check is not complete for unchanged plans, because the planner asks for models only when something changes.
- InitDecisions.CollisionsConverge: requires that codex has no credential variables, which the decoder guarantees (internal/config/load.go:57-70).
- InitDecisions.ApplyCollisionDecisions: does not repeat the validation of the resulting options, because `InitDecisions.DecisionsStayValid` proves that it passes, nor the printable-text check of collision names, which a planned collision always meets.
- PathResolve.Canonicalize: takes paths already split at their separators and a file system that does not change meanwhile; joining the last component back on is not modelled.
- The staged files of a transaction are values in their directory's list, so the model has no aliasing between the list and the local variables that name its elements.
- The lock file, file modes, owners and digests: contents stand for digests, and a failed check is a free choice.
- Files are written completely or arbitrarily; a short write is an arbitrary content with an error.
- Other programs writing to the same directories: the properties are stated without outside interference, but every inspection may fail at any time.
- The wrap-around of the 64-bit generation and wait counters.
- Native calls, file identities beyond inode numbers, handles, and the Windows and other-Unix variants of the file layer.
- Parsing and rendering TOML: the decoded candidate is taken to be the planned configuration, and a fresh file may list its models in any order.
- Where the edits of a merged source come from; `SourceEdits` starts from the edits.
- The order in which a diff is written out, and its text.
- The scheduler: it may run the work any number of times and return anything; its own guarantees are not used.
- The checks of `Respond` before it reads the provider's health, which answer with fixed public errors, and the schema compiler, whose verdict is a free choice.
- A claim that a successful run stayed within its output limit: readers may pass it after the exit was recorded.
- Version output that is not valid UTF-8, which the program refuses before looking at it; characters stand for code points, and which of them join identifiers is a parameter.
- Probe commands, credentials, the key loader and the instance lock of the diagnosis: each is one answer in the record of everything a run learns from outside.
- DoctorRun.ReportBuilder.CompleteReport: takes the aliases as already sorted and expected, because the registry gives the builder one list for both.
- Messages of diagnosis checks: a code determines its message.
- Which characters are printable, apart from visible ASCII, is a parameter of the planner's safety checks.
- The case keys of Windows paths and the leaf name rules: their verdict is part of the evidence.
- HTTP handlers, logging, prompts on the terminal, discovery, command-line flags and completion text: input and output.
- Entropy and clocks: identifiers and time stamps are free choices.
