/** The publication steps of a commit: the key, then the backup, then the candidate, each with its undoing. */
module ConfigPublish {
  import opened ConfigRestore
  import opened ConfigStore
  import opened Options
  import opened StoreDisk
  import opened StoreFiles
  import opened StoreKey
  import opened StoreVolume

  function KeyNames(m: Mutation): set<Path> {
    if m.key.path.Some? then {TempKeyPath(m.key.path.value), m.key.path.value} else {}
  }

  /** The backup is what `first` had there, or holds the same content as certainly as the platform can. */
  ghost predicate BackupAsFound(first: Disk, d: Disk, m: Mutation, dirSync: bool) {
    && first.WellFormed() && d.WellFormed()
    && (|| Calm(first, d, BackupPath(m.config))
        || (d.Read(BackupPath(m.config)) == first.Read(BackupPath(m.config))
            && (dirSync ==> d.Surely(BackupPath(m.config), first.Read(BackupPath(m.config))))))
  }

  /** Everything is staged and, over an existing base, the backup is published. */
  ghost predicate ReadyToPublish(first: Disk, d: Disk, m: Mutation, files: seq<StoreFile>, prior: Option<Bytes>) {
    var payloads := StagedPayloads(m, prior);
    && |files| == |payloads|
    && TemporariesAccounted(first, d, m, files, {})
    && OwnedNames(files) <= Temporaries(m.config)
    && (forall k :: 0 <= k < |files| ==> first.Live(Temporary(m, k)).None? && files[k].inode == |first.files| + k)
    && (forall k :: 0 <= k < |files| && k != BACKUP ==> Waiting(d, m, files, k, payloads[k]))
    && (BACKUP < |files| ==> files[BACKUP].path == BackupPath(m.config) && !files[BACKUP].temporary && files[BACKUP].InPlace(d))
  }

  /** Moves the staged backup to its name; a failed check after the move still counts as moved. */
  method MoveBackup(directory: TransactionDirectory, m: Mutation, prior: Option<Bytes>, ghost first: Disk)
    returns (ok: bool, moved: bool)
    requires directory.Valid() && directory.dir == m.config.dir && m.base.Some?
    requires AllWaiting(first, directory.volume.disk, m, directory.files, StagedPayloads(m, prior))
    requires forall k :: 0 <= k < |directory.files| ==> first.Live(Temporary(m, k)).None?
    requires TemporariesAccounted(first, directory.volume.disk, m, directory.files, {})
    requires OwnedNames(directory.files) <= Temporaries(m.config)
    modifies directory`files, directory.volume`disk, directory.volume`recent, directory.volume`touched, directory.volume`faults
    ensures directory.Valid() && directory.volume.Moved({BackupPath(m.config), Temporary(m, BACKUP)})
    ensures directory.volume.disk.files == old(directory.volume.disk).files
    ensures !moved ==> !ok && directory.volume.disk == old(directory.volume.disk) && directory.files == old(directory.files)
    ensures moved ==>
              && directory.volume.disk == old(directory.volume.disk).Rename(Temporary(m, BACKUP), BackupPath(m.config))
              && ReadyToPublish(first, directory.volume.disk, m, directory.files, prior)
              && directory.volume.disk.Read(BackupPath(m.config)) == m.base
              && directory.volume.disk.SyncDirectory(m.config.dir).Surely(BackupPath(m.config), m.base)
              && (prior.None? ==> old(directory.volume.disk).Live(BackupPath(m.config)).None?)
    ensures ok ==> moved
    ensures directory.volume.Faultless() && (prior.None? ==> old(directory.volume.disk).Live(BackupPath(m.config)).None?) ==> ok
  {
    hide OnlyAt, Volume.Valid, Disk.WellFormed, Temporaries, Temporary, TemporaryName, Sibling, TemporariesAccounted;
    TemporariesDiffer(m);
    ghost var before, was := directory.volume.disk, directory.files;
    assert Waiting(before, m, was, BACKUP, m.base.value);
    RenamedAndSynced(before, Temporary(m, BACKUP), BackupPath(m.config), was[BACKUP].inode, m.base.value);
    ok := directory.Publish(BACKUP, BackupPath(m.config), prior.None?);
    moved := directory.files[BACKUP].path == BackupPath(m.config);
    if moved {
      directory.files := directory.files[BACKUP := directory.files[BACKUP].(temporary := false)];
      MoveAccounted(first, before, was, directory.volume.disk, directory.files, m, BACKUP, m.base.value, BackupPath(m.config));
      StillReady(first, before, was, directory.volume.disk, directory.files, m, prior);
    }
  }

  lemma StillReady(first: Disk, before: Disk, was: seq<StoreFile>, d: Disk, files: seq<StoreFile>, m: Mutation, prior: Option<Bytes>)
    requires m.base.Some? && AllWaiting(first, before, m, was, StagedPayloads(m, prior))
    requires forall k :: 0 <= k < |was| ==> first.Live(Temporary(m, k)).None?
    requires d == before.Rename(Temporary(m, BACKUP), BackupPath(m.config))
    requires files == was[BACKUP := was[BACKUP].(path := BackupPath(m.config), temporary := false)]
    requires TemporariesAccounted(first, d, m, files, {}) && OwnedNames(files) <= Temporaries(m.config)
    ensures ReadyToPublish(first, d, m, files, prior)
  {
    TemporariesDiffer(m);
    forall k | 0 <= k < |files| && k != BACKUP
      ensures Waiting(d, m, files, k, StagedPayloads(m, prior)[k])
    {
      assert Waiting(before, m, was, k, StagedPayloads(m, prior)[k]);
    }
  }

  /** A directory sync loses nothing that is ready. */
  lemma SyncStaysReady(first: Disk, d: Disk, later: Disk, m: Mutation, files: seq<StoreFile>, prior: Option<Bytes>)
    requires ReadyToPublish(first, d, m, files, prior)
    requires forall q :: Calm(d, later, q)
    requires d.WellFormed() && later.WellFormed() && later.files == d.files
    ensures ReadyToPublish(first, later, m, files, prior)
  {
    assert Calm(d, later, BackupPath(m.config));
    SyncKeeps(first, d, later, m, files, m.config);
    forall k | 0 <= k < |files| && k != BACKUP
      ensures Waiting(later, m, files, k, StagedPayloads(m, prior)[k])
    {
      assert Waiting(d, m, files, k, StagedPayloads(m, prior)[k]) && Calm(d, later, Temporary(m, k));
    }
  }

  lemma BackupUntouched(first: Disk, d: Disk, m: Mutation, dirSync: bool)
    requires first.WellFormed() && d.WellFormed() && d.At(BackupPath(m.config)) == first.At(BackupPath(m.config))
    ensures BackupAsFound(first, d, m, dirSync)
  {
  }

  /** The same directories, of which those in `dir` were synced. */
  ghost predicate SyncedSince(d: Disk, later: Disk, dirSync: bool, dir: Directory) {
    later.dirs == d.dirs && later.pending == Unsettled(dirSync, d.pending, dir)
  }

  /** Publishes the backup and makes it durable; `None` means go on. */
  method PublishBackup(directory: TransactionDirectory, m: Mutation, prior: Option<Bytes>, ghost first: Disk)
    returns (stop: Option<CommitState>)
    requires directory.Valid() && directory.dir == m.config.dir && m.base.Some?
    requires first.WellFormed() && directory.volume.disk.Extends(first)
    requires directory.volume.disk.At(BackupPath(m.config)) == first.At(BackupPath(m.config))
    requires prior == first.Read(BackupPath(m.config))
    requires AllWaiting(first, directory.volume.disk, m, directory.files, StagedPayloads(m, prior))
    requires forall k :: 0 <= k < |directory.files| ==> first.Live(Temporary(m, k)).None?
    requires TemporariesAccounted(first, directory.volume.disk, m, directory.files, {})
    requires OwnedNames(directory.files) <= Temporaries(m.config)
    modifies directory`files, directory.volume`disk, directory.volume`recent, directory.volume`touched, directory.volume`faults
    ensures directory.Valid() && directory.volume.Moved(Temporaries(m.config) + {BackupPath(m.config)})
    ensures directory.volume.disk.files == old(directory.volume.disk).files
    ensures directory.volume.disk.WellFormed()
    ensures stop.None? ==> ReadyToPublish(first, directory.volume.disk, m, directory.files, prior)
                           && BackupHeld(m, directory.volume.dirSync, directory.volume.disk)
                           && SyncedSince(old(directory.volume.disk), directory.volume.disk, directory.volume.dirSync, m.config.dir)
    ensures stop.Some? ==>
              && (stop.value.NotCommitted? || stop.value.RecoveryRequired?)
              && TemporariesAccounted(first, directory.volume.disk, m, directory.files, {})
              && OwnedNames(directory.files) <= Temporaries(m.config) + (if stop.value.RecoveryRequired? then {BackupPath(m.config)} else {})
              && (stop.value.NotCommitted? ==> BackupAsFound(first, directory.volume.disk, m, directory.volume.dirSync))
    ensures directory.volume.Faultless() ==> stop.None?
    ensures directory.volume.faults <= old(directory.volume.faults) + 1 ==> stop != Some(RecoveryRequired)
  {
    hide OnlyAt, Volume.Valid, Disk.WellFormed, Temporaries, Temporary, TemporaryName, Sibling, TemporariesAccounted;
    hide BackupAsFound, ReadyToPublish, Waiting, AllWaiting;
    TemporariesDiffer(m);
    BackupUntouched(first, directory.volume.disk, m, directory.volume.dirSync);
    var changed := directory.volume.Fault();
    if changed {
      return Some(NotCommitted);
    }
    var ok, moved := MoveBackup(directory, m, prior, first);
    if !moved {
      return Some(NotCommitted);
    }
    stop := HoldBackup(directory, m, prior, first, ok);
  }

  /** Makes a backup that has moved durable, or restores the earlier one. */
  method HoldBackup(directory: TransactionDirectory, m: Mutation, prior: Option<Bytes>, ghost first: Disk, checked: bool)
    returns (stop: Option<CommitState>)
    requires directory.Valid() && directory.dir == m.config.dir && m.base.Some? && first.WellFormed()
    requires prior == first.Read(BackupPath(m.config)) && ReadyToPublish(first, directory.volume.disk, m, directory.files, prior)
    requires directory.volume.disk.Read(BackupPath(m.config)) == m.base
    requires directory.volume.disk.SyncDirectory(m.config.dir).Surely(BackupPath(m.config), m.base)
    modifies directory`files, directory.volume`disk, directory.volume`recent, directory.volume`touched, directory.volume`faults
    ensures directory.Valid() && directory.volume.Moved({BackupPath(m.config), Temporary(m, RESTORE)})
    ensures directory.volume.disk.files == old(directory.volume.disk).files && directory.volume.disk.WellFormed()
    ensures stop.None? ==> ReadyToPublish(first, directory.volume.disk, m, directory.files, prior)
                           && BackupHeld(m, directory.volume.dirSync, directory.volume.disk)
                           && SyncedSince(old(directory.volume.disk), directory.volume.disk, directory.volume.dirSync, m.config.dir)
    ensures stop.Some? ==>
              && (stop.value.NotCommitted? || stop.value.RecoveryRequired?)
              && TemporariesAccounted(first, directory.volume.disk, m, directory.files, {})
              && OwnedNames(directory.files) <= Temporaries(m.config) + (if stop.value.RecoveryRequired? then {BackupPath(m.config)} else {})
              && (stop.value.NotCommitted? ==> BackupAsFound(first, directory.volume.disk, m, directory.volume.dirSync))
    ensures checked && directory.volume.Faultless() ==> stop.None?
    ensures directory.volume.faults <= old(directory.volume.faults) + (if checked then 1 else 0) ==> stop != Some(RecoveryRequired)
  {
    hide OnlyAt, Volume.Valid, Disk.WellFormed, Temporaries, Temporary, TemporaryName, Sibling, TemporariesAccounted;
    hide BackupAsFound, ReadyToPublish, Waiting;
    var ok := checked;
    ghost var published := directory.volume.disk;
    if ok {
      var interrupted := directory.volume.Fault();
      ok := !interrupted;
    }
    if ok {
      ok := directory.volume.SyncDirectory(directory.dir);
      SyncStaysReady(first, published, directory.volume.disk, m, directory.files, prior);
      SyncSettles(published, m.config.dir);
    }
    if ok {
      assert Calm(published, directory.volume.disk, BackupPath(m.config));
      return None;
    }
    var state := UndoBackup(directory, m, prior, first);
    return Some(state);
  }

  /** Once the backup is out, every failure restores it; without a base there is nothing to restore. */
  method UndoBackup(directory: TransactionDirectory, m: Mutation, prior: Option<Bytes>, ghost first: Disk)
    returns (state: CommitState)
    requires directory.Valid() && directory.dir == m.config.dir && first.WellFormed()
    requires m.base.Some? ==> prior == first.Read(BackupPath(m.config))
    requires ReadyToPublish(first, directory.volume.disk, m, directory.files, prior)
    requires m.base.None? ==> Calm(first, directory.volume.disk, BackupPath(m.config))
    modifies directory`files, directory.volume`disk, directory.volume`recent, directory.volume`touched, directory.volume`faults
    ensures directory.Valid() && directory.volume.Moved({BackupPath(m.config), Temporary(m, RESTORE)})
    ensures directory.volume.disk.files == old(directory.volume.disk).files
    ensures state.NotCommitted? || (state.RecoveryRequired? && m.base.Some?)
    ensures TemporariesAccounted(first, directory.volume.disk, m, directory.files, {})
    ensures OwnedNames(directory.files) <= Temporaries(m.config) + (if state.RecoveryRequired? then {BackupPath(m.config)} else {})
    ensures state.NotCommitted? ==> BackupAsFound(first, directory.volume.disk, m, directory.volume.dirSync)
    ensures directory.volume.Faultless() ==> state.NotCommitted?
  {
    hide OnlyAt, Volume.Valid, Disk.WellFormed, Temporaries, Temporary, TemporaryName, Sibling, TemporariesAccounted;
    TemporariesDiffer(m);
    if m.base.None? {
      return NotCommitted;
    }
    if prior.Some? {
      assert StagedPayloads(m, prior)[RESTORE] == prior.value;
      assert Waiting(directory.volume.disk, m, directory.files, RESTORE, prior.value);
    }
    state := FailBeforeConfig(directory, m, prior, first);
  }

  /** Cleanup will find every file it has to unlink. */
  ghost predicate AllRemovable(d: Disk, files: seq<StoreFile>) {
    forall f <- files :: f.Owning() ==> f.Removable(d)
  }

  /** The running system has the candidate as its config, and nothing was synced since `before`. */
  ghost predicate JustMoved(before: Disk, d: Disk, m: Mutation, candidate: Inode) {
    && d.Live(m.config) == Some(candidate) && candidate < |d.files| && d.files[candidate] == File(m.candidate, true)
    && d.dirs == before.dirs && d.pending == before.pending
  }

  /** The candidate file is the config, and where directories sync nothing else can be. */
  ghost predicate Installed(d: Disk, m: Mutation, dirSync: bool, candidate: Inode) {
    && d.Live(m.config) == Some(candidate)
    && candidate < |d.files| && d.files[candidate] == File(m.candidate, true)
    && (dirSync ==> d.At(m.config).maybe == {Some(candidate)})
  }

  method MoveCandidate(directory: TransactionDirectory, m: Mutation, prior: Option<Bytes>, ghost first: Disk)
    returns (ok: bool, moved: bool)
    requires directory.Valid() && directory.dir == m.config.dir
    requires ReadyToPublish(first, directory.volume.disk, m, directory.files, prior)
    modifies directory`files, directory.volume`disk, directory.volume`recent, directory.volume`touched, directory.volume`faults
    ensures directory.Valid() && directory.volume.Moved({m.config, Temporary(m, CANDIDATE)})
    ensures directory.volume.disk.files == old(directory.volume.disk).files
    ensures !moved ==> !ok && directory.volume.disk == old(directory.volume.disk) && directory.files == old(directory.files)
                       && directory.volume.touched == old(directory.volume.touched)
    ensures moved ==>
              && directory.volume.disk == old(directory.volume.disk).Rename(Temporary(m, CANDIDATE), m.config)
              && directory.volume.disk in directory.volume.recent
              && JustMoved(old(directory.volume.disk), directory.volume.disk, m, |first.files|)
              && (m.base.None? ==> old(directory.volume.disk).Live(m.config).None?)
              && directory.files == old(directory.files)[CANDIDATE := old(directory.files)[CANDIDATE].(path := m.config, temporary := false)]
              && directory.volume.disk.Live(m.config) == Some(|first.files|)
              && |first.files| < |directory.volume.disk.files|
              && directory.volume.disk.files[|first.files|] == File(m.candidate, true)
              && (m.base.Some? ==> Waiting(directory.volume.disk, m, directory.files, ROLLBACK, m.base.value)
                                   && directory.files[ROLLBACK].inode != |first.files|
                                   && first.Live(Temporary(m, ROLLBACK)).None?)
              && TemporariesAccounted(first, directory.volume.disk, m, directory.files, {})
              && OwnedNames(directory.files) <= Temporaries(m.config)
              && directory.files[CANDIDATE].InPlace(directory.volume.disk) && AllRemovable(directory.volume.disk, directory.files)
    ensures ok ==> moved
    ensures directory.volume.Faultless() && (m.base.None? ==> old(directory.volume.disk).Live(m.config).None?) ==> ok
  {
    hide OnlyAt, Disk.WellFormed, Temporaries, Temporary, TemporaryName, Sibling, TemporariesAccounted;
    TemporariesDiffer(m);
    hide AllRemovable;
    ghost var before, was := directory.volume.disk, directory.files;
    assert Waiting(before, m, was, CANDIDATE, StagedPayloads(m, prior)[CANDIDATE]);
    assert m.base.Some? ==> Waiting(before, m, was, ROLLBACK, StagedPayloads(m, prior)[ROLLBACK]);
    ok := directory.Publish(CANDIDATE, m.config, m.base.None?);
    moved := directory.files[CANDIDATE].path == m.config;
    if moved {
      directory.files := directory.files[CANDIDATE := directory.files[CANDIDATE].(temporary := false)];
      MoveAccounted(first, before, was, directory.volume.disk, directory.files, m, CANDIDATE, m.candidate, m.config);
      MovedRemovable(first, before, was, directory.volume.disk, directory.files, m, prior);
    }
  }

  /** Once the candidate is the config, only temporaries are left to unlink, and each is still its own file. */
  lemma MovedRemovable(first: Disk, before: Disk, was: seq<StoreFile>, d: Disk, files: seq<StoreFile>, m: Mutation, prior: Option<Bytes>)
    requires ReadyToPublish(first, before, m, was, prior) && d == before.Rename(Temporary(m, CANDIDATE), m.config)
    requires files == was[CANDIDATE := was[CANDIDATE].(path := m.config, temporary := false)]
    ensures AllRemovable(d, files)
  {
    hide TemporariesAccounted, Temporary;
    TemporariesDiffer(m);
    forall k | 0 <= k < |files| && files[k].Owning()
      ensures files[k].Removable(d)
    {
      assert k != CANDIDATE && k != BACKUP;
      assert Waiting(before, m, was, k, StagedPayloads(m, prior)[k]);
    }
  }

  lemma ReadyShape(first: Disk, d: Disk, m: Mutation, files: seq<StoreFile>, prior: Option<Bytes>)
    requires ReadyToPublish(first, d, m, files, prior)
    ensures |files| == |StagedPayloads(m, prior)| && TemporariesAccounted(first, d, m, files, {})
    ensures OwnedNames(files) <= Temporaries(m.config)
    ensures files[CANDIDATE].inode == |first.files|
  {
  }

  /**
   The last checks, the publication of the candidate, and its undoing. From the entry of
   this method on, either the config or the backup is never touched again.
   */
  method PublishCandidate(directory: TransactionDirectory, m: Mutation, prior: Option<Bytes>, ghost first: Disk)
    returns (state: CommitState, ghost installed: bool)
    requires directory.Valid() && directory.dir == m.config.dir && first.WellFormed()
    requires m.base.Some? ==> prior == first.Read(BackupPath(m.config))
    requires ReadyToPublish(first, directory.volume.disk, m, directory.files, prior)
    requires m.base.None? ==> Calm(first, directory.volume.disk, BackupPath(m.config))
    modifies directory`files, directory.volume`disk, directory.volume`recent, directory.volume`touched, directory.volume`faults
    modifies directory.volume`past, directory.volume`origin
    ensures directory.Valid() && directory.volume.disk.files == old(directory.volume.disk).files
    ensures directory.volume.past == old(directory.volume.past) + old(directory.volume.recent)
    ensures directory.volume.origin == old(directory.volume.disk)
    ensures TemporariesAccounted(first, directory.volume.disk, m, directory.files, {})
    ensures !installed ==>
              && directory.volume.touched <= Temporaries(m.config) + {BackupPath(m.config)}
              && (state.NotCommitted? || (state.RecoveryRequired? && m.base.Some?))
              && OwnedNames(directory.files) <= Temporaries(m.config) + (if state.RecoveryRequired? then {BackupPath(m.config)} else {})
              && (state.NotCommitted? ==> BackupAsFound(first, directory.volume.disk, m, directory.volume.dirSync))
    ensures installed ==>
              && directory.volume.touched <= Temporaries(m.config) + {m.config}
              && (state.Committed? || state.RolledBack? || state.Indeterminate?)
              && OwnedNames(directory.files) <= Temporaries(m.config) + (if state.Indeterminate? then {m.config} else {})
              && (exists d <- directory.volume.recent :: JustMoved(old(directory.volume.disk), d, m, |first.files|))
              && (state.Committed? ==>
                    Installed(directory.volume.disk, m, directory.volume.dirSync, |first.files|)
                    && SyncedSince(old(directory.volume.disk), directory.volume.disk, directory.volume.dirSync, m.config.dir))
              && (state.RolledBack? ==>
                    && directory.volume.disk.Read(m.config) == m.base
                    && directory.volume.disk.Live(m.config) != Some(|first.files|)
                    && (directory.volume.dirSync ==>
                          Some(|first.files|) !in directory.volume.disk.At(m.config).maybe
                          && directory.volume.disk.Surely(m.config, m.base)))
    ensures old(directory.volume.faults) <= directory.volume.faults
    ensures directory.volume.Faultless() && old(directory.volume.disk).Read(m.config) == m.base ==> state.Committed?
    ensures state.Committed? ==> AllRemovable(directory.volume.disk, directory.files)
    ensures directory.volume.faults <= old(directory.volume.faults) + 1 && old(directory.volume.disk).Read(m.config) == m.base ==>
              !state.RecoveryRequired?
  {
    hide OnlyAt, Volume.Valid, Disk.WellFormed, Temporaries, Temporary, TemporaryName, Sibling, TemporariesAccounted;
    hide BackupAsFound, AllRemovable, Installed, StoreFile.InPlace, Waiting, ReadyToPublish, JustMoved, NotEntriesOf;
    TemporariesDiffer(m);
    directory.volume.Checkpoint();
    installed := false;
    var canceled := directory.volume.Fault();
    var ok := !canceled;
    if ok {
      ok := ValidateBaseRevision(directory.volume, m);
    }
    if ok {
      var interrupted := directory.volume.Fault();
      ok := !interrupted;
    }
    if ok {
      ok := ValidateBaseRevision(directory.volume, m);
    }
    if !ok {
      state := UndoBackup(directory, m, prior, first);
      return;
    }
    ReadyShape(first, directory.volume.disk, m, directory.files, prior);
    var moved;
    ok, moved := MoveCandidate(directory, m, prior, first);
    if !moved {
      state := UndoBackup(directory, m, prior, first);
      return;
    }
    installed := true;
    if !ok {
      return Indeterminate, true;
    }
    state := SyncCandidate(directory, m, prior, first);
  }

  /** Makes a published candidate durable, or takes it back. */
  method SyncCandidate(directory: TransactionDirectory, m: Mutation, prior: Option<Bytes>, ghost first: Disk)
    returns (state: CommitState)
    requires directory.Valid() && directory.dir == m.config.dir
    requires |directory.files| == |StagedPayloads(m, prior)| && |first.files| < |directory.volume.disk.files|
    requires directory.files[CANDIDATE].path == m.config && !directory.files[CANDIDATE].temporary
    requires directory.files[CANDIDATE].inode == |first.files| && directory.files[CANDIDATE].InPlace(directory.volume.disk)
    requires directory.volume.disk.Live(m.config) == Some(|first.files|)
    requires directory.volume.disk.files[|first.files|] == File(m.candidate, true)
    requires m.base.Some? ==>
               && Waiting(directory.volume.disk, m, directory.files, ROLLBACK, m.base.value)
               && directory.files[ROLLBACK].inode != |first.files| && first.Live(Temporary(m, ROLLBACK)).None?
    requires TemporariesAccounted(first, directory.volume.disk, m, directory.files, {})
    requires OwnedNames(directory.files) <= Temporaries(m.config)
    modifies directory`files, directory.volume`disk, directory.volume`recent, directory.volume`touched, directory.volume`faults
    ensures directory.Valid() && directory.volume.Moved({m.config, Temporary(m, ROLLBACK)})
    ensures directory.volume.disk.files == old(directory.volume.disk).files
    ensures TemporariesAccounted(first, directory.volume.disk, m, directory.files, {})
    ensures state.Committed? || state.RolledBack? || state.Indeterminate?
    ensures OwnedNames(directory.files) <= Temporaries(m.config) + (if state.Indeterminate? then {m.config} else {})
    ensures state.Committed? ==>
              && Installed(directory.volume.disk, m, directory.volume.dirSync, |first.files|)
              && SyncedSince(old(directory.volume.disk), directory.volume.disk, directory.volume.dirSync, m.config.dir)
    ensures state.RolledBack? ==>
              && directory.volume.disk.Read(m.config) == m.base
              && directory.volume.disk.Live(m.config) != Some(|first.files|)
              && (directory.volume.dirSync ==>
                    Some(|first.files|) !in directory.volume.disk.At(m.config).maybe
                    && directory.volume.disk.Surely(m.config, m.base))
    requires AllRemovable(directory.volume.disk, directory.files)
    ensures state.Committed? ==> AllRemovable(directory.volume.disk, directory.files)
    ensures directory.volume.Faultless() ==> state.Committed?
    ensures directory.volume.faults <= old(directory.volume.faults) + 1 ==> !state.Indeterminate?
  {
    hide OnlyAt, Volume.Valid, Disk.WellFormed, Temporaries, Temporary, TemporaryName, Sibling, TemporariesAccounted;
    TemporariesDiffer(m);
    ghost var published := directory.volume.disk;
    SyncedName(published, m.config);
    var ok := directory.volume.SyncDirectory(directory.dir);
    SyncKeeps(first, published, directory.volume.disk, m, directory.files, m.config);
    if ok {
      SyncStaysRemovable(published, directory.volume.disk, directory.files);
      return Committed;
    }
    assert Calm(published, directory.volume.disk, Temporary(m, ROLLBACK));
    state := RollbackPublishedConfig(directory, m, first);
  }

  lemma SyncStaysRemovable(d: Disk, later: Disk, files: seq<StoreFile>)
    requires AllRemovable(d, files) && forall q :: Calm(d, later, q)
    ensures AllRemovable(later, files)
  {
    forall f <- files | f.Owning()
      ensures f.Removable(later)
    {
      assert Calm(d, later, f.path);
    }
  }

  /** What the key path holds before the transaction decides what to do about it. */
  function KeyStateAt(d: Disk, m: Mutation): KeyState {
    if m.key.path.None? then KeyNone
    else if d.Live(m.key.path.value).None? then KeyMissing
    else if m.key.intent.IntentEnsure? && !m.key.allowExisting then KeyNeedsConfirmation
    else KeyReusable
  }

  method PreflightKey(volume: Volume, m: Mutation) returns (state: Option<KeyState>)
    requires m.decoded.Some? && ValidKeyPlan(m)
    modifies volume`faults
    ensures old(volume.faults) <= volume.faults
    ensures state.Some? ==> state.value == KeyStateAt(volume.disk, m)
    ensures volume.Faultless() ==> state.Some?
  {
    if m.key.path.None? {
      return Some(KeyNone);
    }
    var unsafePath := volume.Fault();
    if unsafePath {
      return None;
    }
    if volume.disk.Live(m.key.path.value).None? {
      return Some(KeyMissing);
    }
    if m.key.intent.IntentEnsure? && !m.key.allowExisting {
      return Some(KeyNeedsConfirmation);
    }
    return Some(KeyReusable);
  }

  /** The paths a new key must not be another name of. */
  function KeyDistinct(m: Mutation): set<Path> {
    {m.config, BackupPath(m.config), LockPath(m.config)} + set p <- m.key.distinctFrom
  }

  /** A key is asked for where there is none, and its text is given. */
  ghost predicate CreatesKey(d: Disk, m: Mutation, payload: Bytes) {
    m.key.path.Some? && d.Live(m.key.path.value).None? && m.key.intent == IntentEnsure && KeyText(payload)
  }

  /** An existing key is kept, and the plan says that it may be. */
  ghost predicate KeepsKey(d: Disk, m: Mutation, payload: Bytes) {
    && m.key.path.Some? && d.Live(m.key.path.value).Some? && payload == []
    && ((m.key.intent == IntentInspect && !m.key.allowExisting) || (m.key.intent == IntentEnsure && m.key.allowExisting))
  }

  /** The key, the plan and the payload fit together: there is no key, it is kept, or it is made. */
  ghost predicate KeyAllowed(d: Disk, m: Mutation, payload: Bytes) {
    (m.key.path.None? && payload == []) || KeepsKey(d, m, payload) || CreatesKey(d, m, payload)
  }

  ghost predicate KeyHasDirectory(d: Disk, m: Mutation, payload: Bytes) {
    CreatesKey(d, m, payload) ==> m.key.path.value.dir in d.dirs
  }

  /** What the commit matrix computes for a valid plan. */
  lemma MatrixMeans(d: Disk, m: Mutation, payload: Bytes)
    requires m.decoded.Some? && ValidKeyPlan(m)
    ensures var mode := KeyCommitMode(m.key, KeyStateAt(d, m), payload);
            && (mode == Some(Noop) <==> m.key.path.None? && payload == [])
            && (mode == Some(Reuse) <==> KeepsKey(d, m, payload))
            && (mode == Some(Create) <==> CreatesKey(d, m, payload))
  {
    GeneratedKeyIs(payload);
  }

  lemma RefusedKey(d: Disk, m: Mutation, payload: Bytes)
    requires !KeyAllowed(d, m, payload)
    ensures !KeySuits(d, m, payload) && !CreatesKey(d, m, payload)
  {
  }

  /** The key work the plan asks for can be done: it is allowed, and a new key can be staged and named. */
  ghost predicate KeySuits(d: Disk, m: Mutation, payload: Bytes) {
    && KeyAllowed(d, m, payload)
    && (CreatesKey(d, m, payload) ==>
          d.Live(TempKeyPath(m.key.path.value)).None? && TempKeyPath(m.key.path.value) !in KeyDistinct(m))
  }

  /**
   Preflight, staging and publication of the key. A key is created only where none was,
   and `clean` says that a failure left nothing behind that it knows of.
   */
  method PublishKey(volume: Volume, m: Mutation, payload: Bytes) returns (ok: bool, key: StagedKey?, clean: bool)
    requires volume.Valid() && m.decoded.Some? && ValidKeyPlan(m) && volume.abandoned == {}
    modifies volume
    ensures volume.Valid() && volume.Moved(KeyNames(m)) && volume.disk.Extends(old(volume.disk))
    ensures forall p | p !in KeyNames(m) :: Calm(old(volume.disk), volume.disk, p)
    ensures volume.abandoned <= KeyNames(m) && (m.key.path.Some? ==> m.key.path.value !in volume.abandoned)
    ensures volume.touched == old(volume.touched) || (
              && CreatesKey(old(volume.disk), m, payload) && old(volume.disk).Live(m.key.path.value).None?
              && old(volume.disk).Live(TempKeyPath(m.key.path.value)).None?)
    ensures key != null ==>
              && ok && fresh(key) && key.volume == volume && key.published && !key.closed && GeneratedKey(payload)
              && m.key.path == Some(key.target) && key.temp == TempKeyPath(key.target) && key.payload == payload
              && old(volume.disk).Live(key.target).None? && key.temp !in KeyDistinct(m)
              && volume.disk.Live(key.temp) == old(volume.disk).Live(key.temp)
              && KeyPresent(volume.dirSync, volume.disk, key.target, payload)
              && key.target.dir in old(volume.disk).dirs
              && SyncedSince(old(volume.disk), volume.disk, volume.dirSync, key.target.dir)
              && volume.abandoned == {}
    ensures m.key.path.Some? && TempKeyPath(m.key.path.value) in KeyDistinct(m) ==> volume.Moved({TempKeyPath(m.key.path.value)})
    ensures ok && key == null ==> volume.disk == old(volume.disk) && volume.abandoned == {}
    ensures ok ==> (key != null <==> CreatesKey(old(volume.disk), m, payload))
    ensures ok ==> KeySuits(old(volume.disk), m, payload) && KeyHasDirectory(old(volume.disk), m, payload)
    ensures volume.Faultless() && KeySuits(old(volume.disk), m, payload) && KeyHasDirectory(old(volume.disk), m, payload) ==> ok
    ensures !CreatesKey(old(volume.disk), m, payload) ==> clean && volume.disk == old(volume.disk) && volume.abandoned == {}
    ensures ok ==> clean
    ensures !ok && clean ==>
              && (forall p <- KeyNames(m) :: p in volume.abandoned
                                             || volume.disk.Live(p) == old(volume.disk).Live(p))
    ensures forall p <- volume.abandoned ::
              volume.disk.Live(p).Some? && old(volume.disk).Live(p).None?
  {
    hide OnlyAt, Volume.Valid, Disk.WellFormed, KeyText;
    key, ok, clean := null, false, true;
    MatrixMeans(volume.disk, m, payload);
    GeneratedKeyIs(payload);
    hide KeyCommitMode, KeyStateAt;
    var state := PreflightKey(volume, m);
    if state.None? {
      return;
    }
    var mode := KeyCommitMode(m.key, state.value, payload);
    if mode.None? {
      return;
    }
    if mode != Some(Create) {
      ok := mode == Some(Noop);
      if mode == Some(Reuse) {
        var unusable := volume.Fault();
        ok := !unusable;
      }
      return;
    }
    TempKeyPathDiffers(m.key.path.value);
    ghost var before := volume.disk;
    key, clean := StageNewKey(volume, m.key.path.value, payload, KeyDistinct(m));
    if key == null {
      assert Calm(before, volume.disk, m.key.path.value);
      return;
    }
    ghost var staged := volume.disk;
    ok, clean := key.Publish();
    forall p | p !in KeyNames(m)
      ensures Calm(before, volume.disk, p)
    {
      assert Calm(before, staged, p) && Calm(staged, volume.disk, p);
    }
    if !ok {
      key := null;
    }
  }

  /** The first half of the transaction: nothing but the temporaries and the backup moves. */
  method StageAndBackUp(directory: TransactionDirectory, m: Mutation, ghost first: Disk)
    returns (stop: Option<CommitState>, prior: Option<Bytes>)
    requires directory.Valid() && directory.dir == m.config.dir && directory.files == []
    requires directory.volume.abandoned == {} && directory.volume.disk == first
    modifies directory`files, directory.volume
    ensures directory.Valid() && directory.volume.disk.WellFormed() && first.WellFormed()
    ensures directory.volume.Moved(Temporaries(m.config) + {BackupPath(m.config)})
    ensures TemporariesAccounted(first, directory.volume.disk, m, directory.files, directory.volume.abandoned)
    ensures directory.volume.abandoned <= Temporaries(m.config)
    ensures stop.Some? ==>
              && (stop.value.NotCommitted? || (stop.value.RecoveryRequired? && m.base.Some? && first.Read(m.config) == m.base))
              && OwnedNames(directory.files) <= Temporaries(m.config) + (if stop.value.RecoveryRequired? then {BackupPath(m.config)} else {})
              && (stop.value.NotCommitted? ==> BackupAsFound(first, directory.volume.disk, m, directory.volume.dirSync))
    ensures stop.None? ==>
              && directory.volume.abandoned == {} && ReadyToPublish(first, directory.volume.disk, m, directory.files, prior)
              && BackupHeld(m, directory.volume.dirSync, directory.volume.disk)
              && first.Read(m.config) == m.base
              && (if m.base.Some? then
                    prior == first.Read(BackupPath(m.config))
                    && SyncedSince(first, directory.volume.disk, directory.volume.dirSync, m.config.dir)
                  else
                    && Calm(first, directory.volume.disk, BackupPath(m.config))
                    && directory.volume.disk.dirs == first.dirs && directory.volume.disk.pending == first.pending)
    ensures directory.volume.Faultless() && first.Read(m.config) == m.base && TemporariesFree(first, m) ==> stop.None?
    ensures stop.None? ==> TemporariesFree(first, m)
    ensures directory.volume.faults <= old(directory.volume.faults) + 1 ==> stop != Some(RecoveryRequired)
  {
    hide OnlyAt, Volume.Valid, Disk.WellFormed, Temporaries, Temporary, TemporaryName, Sibling, TemporariesAccounted, Waiting;
    hide SyncedSince;
    TemporariesDiffer(m);
    stop := None;
    var ok;
    ok, prior := StageFiles(directory.volume, directory, m);
    ghost var staged := directory.volume.disk;
    BackupUntouched(first, staged, m, directory.volume.dirSync);
    SameEntryReadsSame(first, staged, m.config);
    if ok {
      var interrupted := directory.volume.Fault();
      ok := !interrupted;
    }
    if ok {
      ok := ValidateBaseRevision(directory.volume, m);
    }
    if !ok {
      return Some(NotCommitted), prior;
    }
    if m.base.Some? {
      stop := PublishBackup(directory, m, prior, first);
      SyncedFrom(first, staged, directory.volume.disk, directory.volume.dirSync, m.config.dir);
    } else {
      AllWaitingIsReady(first, directory.volume.disk, m, directory.files, prior);
    }
  }

  /**
   The transaction from staging to the final state, before any cleanup. The record of the
   disk splits in two: up to `origin` only the backup and the temporaries moved; from
   `origin` on, the config moved only if `installed`, and then the backup did not.
   */
  method Transact(directory: TransactionDirectory, m: Mutation, ghost first: Disk)
    returns (state: CommitState, ghost installed: bool)
    requires directory.Valid() && directory.dir == m.config.dir && directory.files == []
    requires directory.volume.abandoned == {} && directory.volume.disk == first && directory.volume.origin == first
    requires directory.volume.touched == {}
    modifies directory`files, directory.volume
    ensures directory.Valid()
    ensures directory.volume.disk.WellFormed() && first.WellFormed()
    ensures TemporariesAccounted(first, directory.volume.disk, m, directory.files, directory.volume.abandoned)
    ensures directory.volume.abandoned <= Temporaries(m.config)
    ensures OnlyAt(first, directory.volume.origin, Temporaries(m.config) + {BackupPath(m.config)})
    ensures old(directory.volume.past) <= directory.volume.past
    ensures forall d <- directory.volume.past - old(directory.volume.past) ::
              d in old(directory.volume.recent) || OnlyAt(first, d, Temporaries(m.config) + {BackupPath(m.config)})
    ensures old(directory.volume.recent) <= directory.volume.past + directory.volume.recent
    ensures !installed ==>
              && directory.volume.touched <= Temporaries(m.config) + {BackupPath(m.config)}
              && (state.NotCommitted? || (state.RecoveryRequired? && m.base.Some? && first.Read(m.config) == m.base))
              && OwnedNames(directory.files) <= Temporaries(m.config) + (if state.RecoveryRequired? then {BackupPath(m.config)} else {})
              && (state.NotCommitted? ==> BackupAsFound(first, directory.volume.disk, m, directory.volume.dirSync))
    ensures installed ==>
              && directory.volume.touched <= Temporaries(m.config) + {m.config}
              && BackupHeld(m, directory.volume.dirSync, directory.volume.origin)
              && (state.Committed? || state.RolledBack? || state.Indeterminate?)
              && OwnedNames(directory.files) <= Temporaries(m.config) + (if state.Indeterminate? then {m.config} else {})
              && (exists d <- directory.volume.recent :: JustPublished(first, d, m, directory.volume.dirSync, |first.files|))
              && (state.Committed? ==>
                    Installed(directory.volume.disk, m, directory.volume.dirSync, |first.files|)
                    && SyncedSince(first, directory.volume.disk, directory.volume.dirSync, m.config.dir))
              && (state.RolledBack? ==>
                    && directory.volume.disk.Read(m.config) == m.base
                    && directory.volume.disk.Live(m.config) != Some(|first.files|)
                    && (directory.volume.dirSync ==>
                          Some(|first.files|) !in directory.volume.disk.At(m.config).maybe
                          && directory.volume.disk.Surely(m.config, m.base)))
    ensures old(directory.volume.faults) <= directory.volume.faults
    ensures directory.volume.Faultless() && first.Read(m.config) == m.base && TemporariesFree(first, m) ==> state.Committed?
    ensures state.Committed? ==> TemporariesFree(first, m)
    ensures state.Committed? ==> AllRemovable(directory.volume.disk, directory.files) && directory.volume.abandoned == {}
    ensures directory.volume.faults <= old(directory.volume.faults) + 1 ==> !state.RecoveryRequired?
  {
    hide Disk.WellFormed, Temporaries, Temporary, TemporaryName, Sibling, TemporariesAccounted, Waiting, ReadyToPublish;
    hide JustMoved, JustPublished, SyncedSince, Installed, AllRemovable, BackupHeld, BackupAsFound, Calm;
    installed := false;
    var stop, prior := StageAndBackUp(directory, m, first);
    if stop.Some? {
      return stop.value, false;
    }
    ghost var ready := directory.volume.disk;
    ConfigNotStaged(directory.volume, first, m);
    state, installed := PublishCandidate(directory, m, prior, first);
    if installed {
      MovedIsPublished(first, ready, directory.volume.recent, m, directory.volume.dirSync);
    }
  }

  lemma ConfigNotStaged(v: Volume, first: Disk, m: Mutation)
    requires v.Valid() && v.origin == first && first.WellFormed() && v.disk.WellFormed()
    requires v.touched <= Temporaries(m.config) + {BackupPath(m.config)}
    ensures v.disk.Read(m.config) == first.Read(m.config)
  {
    TemporariesDiffer(m);
    CalmKeepsContent(first, v.disk, m.config, None);
  }

  /** The moment the candidate became the config: over a base, the config directory was synced once before. */
  ghost predicate JustPublished(first: Disk, d: Disk, m: Mutation, dirSync: bool, candidate: Inode) {
    && d.Live(m.config) == Some(candidate) && candidate < |d.files| && d.files[candidate] == File(m.candidate, true)
    && d.dirs == first.dirs
    && d.pending == if m.base.Some? then Unsettled(dirSync, first.pending, m.config.dir) else first.pending
  }

  lemma MovedIsPublished(first: Disk, before: Disk, recent: set<Disk>, m: Mutation, dirSync: bool)
    requires if m.base.Some? then SyncedSince(first, before, dirSync, m.config.dir)
             else before.dirs == first.dirs && before.pending == first.pending
    requires exists d <- recent :: JustMoved(before, d, m, |first.files|)
    ensures exists d <- recent :: JustPublished(first, d, m, dirSync, |first.files|)
    ensures forall d :: SyncedSince(before, d, dirSync, m.config.dir) ==> SyncedSince(first, d, dirSync, m.config.dir)
  {
    var d :| d in recent && JustMoved(before, d, m, |first.files|);
    assert JustPublished(first, d, m, dirSync, |first.files|);
    assert NotEntriesOf(NotEntriesOf(first.pending, m.config.dir), m.config.dir) == NotEntriesOf(first.pending, m.config.dir);
  }

  lemma SyncedFrom(first: Disk, d: Disk, later: Disk, dirSync: bool, dir: Directory)
    requires d.dirs == first.dirs && d.pending == first.pending
    ensures SyncedSince(d, later, dirSync, dir) ==> SyncedSince(first, later, dirSync, dir)
  {
  }

  lemma AllWaitingIsReady(first: Disk, d: Disk, m: Mutation, files: seq<StoreFile>, prior: Option<Bytes>)
    requires m.base.None? && AllWaiting(first, d, m, files, StagedPayloads(m, prior))
    requires TemporariesAccounted(first, d, m, files, {}) && OwnedNames(files) <= Temporaries(m.config)
    requires first.Live(Temporary(m, CANDIDATE)).None?
    ensures ReadyToPublish(first, d, m, files, prior)
  {
  }
}
