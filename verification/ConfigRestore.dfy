/** Undoing a published backup or a published candidate. */
module ConfigRestore {
  import opened ConfigStore
  import opened Options
  import opened StoreDisk
  import opened StoreFiles
  import opened StoreVolume

  /** The names a cleanup would unlink. */
  function OwnedNames(files: seq<StoreFile>): set<Path> {
    set f <- files | f.Owning() :: f.path
  }

  /**
   What undoing may have done to `target`: nothing, unlinked the published file, or moved
   the staged copy over it. The copy's `temporary` flag survives a move whose later check failed.
   */
  ghost predicate PutBackOutcome(before: Disk, was: seq<StoreFile>, d: Disk, files: seq<StoreFile>,
                                 published: nat, copy: nat, at: Path, target: Path)
    requires published < |was|
  {
    && |files| == |was|
    && (forall k :: 0 <= k < |was| && k != published && k != copy ==> files[k] == was[k])
    && files[published] == was[published].(linked := files[published].linked)
    && (|| ((d == before || d == before.Unlink(target)) && (copy < |was| ==> files[copy] == was[copy]))
        || (copy < |was| && d == before.Rename(at, target)
            && files[copy] == was[copy].(path := target, temporary := files[copy].temporary)))
  }

  /** The published file is still at its name, and a copy of earlier content was staged. */
  ghost predicate Undoable(d: Disk, files: seq<StoreFile>, published: nat, copy: nat, wanted: Option<Bytes>)
    requires published < |files|
  {
    files[published].InPlace(d) && (wanted.Some? ==> copy < |files|)
  }

  /** Moving a waiting file to its target leaves every temporary name accounted for. */
  lemma MoveAccounted(first: Disk, before: Disk, was: seq<StoreFile>, d: Disk, files: seq<StoreFile>,
                      m: Mutation, k: nat, payload: Bytes, target: Path)
    requires TemporariesAccounted(first, before, m, was, {})
    requires Waiting(before, m, was, k, payload) && k < 4 && first.Live(Temporary(m, k)).None?
    requires target !in Temporaries(m.config) && d == before.Rename(Temporary(m, k), target)
    requires |files| == |was| && files[k].path == target
    requires forall j :: 0 <= j < |was| && j != k ==> files[j] == was[j] || (!was[j].Owning() && !files[j].Owning())
    ensures TemporariesAccounted(first, d, m, files, {})
    ensures OwnedNames(files) <= OwnedNames(was) + if files[k].Owning() then {target} else {}
  {
  }

  lemma PutBackAccounted(first: Disk, before: Disk, was: seq<StoreFile>, d: Disk, files: seq<StoreFile>,
                         m: Mutation, published: nat, copy: nat, payload: Bytes, target: Path)
    requires published < |was| && !was[published].temporary && published != copy && copy < 4
    requires TemporariesAccounted(first, before, m, was, {})
    requires copy < |was| ==> Waiting(before, m, was, copy, payload) && first.Live(Temporary(m, copy)).None?
    requires target !in Temporaries(m.config)
    requires PutBackOutcome(before, was, d, files, published, copy, Temporary(m, copy), target)
    ensures TemporariesAccounted(first, d, m, files, {})
    ensures forall p | p !in {target, Temporary(m, copy)} :: d.At(p) == before.At(p)
    ensures OwnedNames(files) <= OwnedNames(was) + if copy < |was| && files[copy].path == target && files[copy].Owning() then {target} else {}
  {
    TemporariesDiffer(m);
    if copy < |was| && d == before.Rename(Temporary(m, copy), target) && files[copy].path == target {
      MoveAccounted(first, before, was, d, files, m, copy, payload, target);
    } else {
      forall j | 0 <= j < 4
        ensures Accounted(first, d, files, {}, Temporary(m, j))
      {
        assert Accounted(first, before, was, {}, Temporary(m, j));
        if d.Live(Temporary(m, j)) != first.Live(Temporary(m, j)) {
          var owner :| 0 <= owner < |was| && was[owner].Owns(Temporary(m, j), before.Live(Temporary(m, j)).value);
          assert files[owner].Owns(Temporary(m, j), d.Live(Temporary(m, j)).value);
        }
      }
    }
  }

  /**
   Puts the earlier content of `target` back: by renaming its staged copy over the
   published file, or by unlinking the published file when there was none.
   */
  method PutBack(directory: TransactionDirectory, m: Mutation, target: Path, wanted: Option<Bytes>,
                 published: nat, copy: nat)
    returns (ok: bool)
    requires directory.Valid() && target !in Temporaries(m.config) && copy < 4
    requires published < |directory.files| && published != copy
    requires directory.files[published].path == target && !directory.files[published].temporary
    requires wanted.None? ==> copy >= |directory.files|
    requires wanted.Some? && copy < |directory.files| ==>
               Waiting(directory.volume.disk, m, directory.files, copy, wanted.value)
               && directory.files[copy].inode != directory.files[published].inode
    modifies directory`files, directory.volume`disk, directory.volume`recent, directory.volume`touched, directory.volume`faults
    ensures directory.Valid() && directory.volume.Moved({target, Temporary(m, copy)})
    ensures directory.volume.disk.files == old(directory.volume.disk).files
    ensures PutBackOutcome(old(directory.volume.disk), old(directory.files), directory.volume.disk, directory.files,
                           published, copy, Temporary(m, copy), target)
    ensures ok ==>
              && directory.volume.disk.Read(target) == wanted
              && directory.volume.disk.Live(target) != Some(directory.files[published].inode)
              && directory.volume.disk.SyncDirectory(target.dir).Surely(target, wanted)
              && (wanted.Some? ==> copy < |directory.files| && directory.files[copy].path == target
                                   && !directory.files[copy].temporary
                                   && directory.volume.disk.Live(target) == Some(directory.files[copy].inode))
    ensures directory.volume.Faultless() && Undoable(old(directory.volume.disk), old(directory.files), published, copy, wanted) ==> ok
  {
    hide OnlyAt, Volume.Valid, Disk.WellFormed, Temporaries, Temporary, TemporaryName, Sibling;
    TemporariesDiffer(m);
    if wanted.None? {
      ghost var unlinked;
      ok, unlinked := directory.Remove(published);
      SyncedName(directory.volume.disk, target);
      return;
    }
    if copy >= |directory.files| {
      return false;
    }
    ok := MoveBack(directory, m, target, wanted.value, published, copy);
  }

  method MoveBack(directory: TransactionDirectory, m: Mutation, target: Path, wanted: Bytes, published: nat, copy: nat)
    returns (ok: bool)
    requires directory.Valid() && target !in Temporaries(m.config) && copy < |directory.files| && copy < 4
    requires published < |directory.files| && published != copy
    requires directory.files[published].path == target && !directory.files[published].temporary
    requires Waiting(directory.volume.disk, m, directory.files, copy, wanted)
    requires directory.files[copy].inode != directory.files[published].inode
    modifies directory`files, directory.volume`disk, directory.volume`recent, directory.volume`touched, directory.volume`faults
    ensures directory.Valid() && directory.volume.Moved({target, Temporary(m, copy)})
    ensures directory.volume.disk.files == old(directory.volume.disk).files
    ensures PutBackOutcome(old(directory.volume.disk), old(directory.files), directory.volume.disk, directory.files,
                           published, copy, Temporary(m, copy), target)
    ensures ok ==>
              && directory.volume.disk.Read(target) == Some(wanted)
              && directory.volume.disk.Live(target) == Some(directory.files[copy].inode)
              && directory.volume.disk.SyncDirectory(target.dir).Surely(target, Some(wanted))
              && directory.files[copy].path == target && !directory.files[copy].temporary
    ensures directory.volume.Faultless() ==> ok
  {
    hide OnlyAt, Volume.Valid, Disk.WellFormed, Temporaries, Temporary, TemporaryName, Sibling;
    TemporariesDiffer(m);
    RenamedAndSynced(directory.volume.disk, Temporary(m, copy), target, directory.files[copy].inode, wanted);
    ok := directory.Publish(copy, target, false);
    if ok {
      directory.files := directory.files[published := directory.files[published].(linked := false)];
      directory.files := directory.files[copy := directory.files[copy].(temporary := false)];
    }
  }

  /** Both undo procedures end with a directory sync; nothing but certainty changes there. */
  lemma SyncKeeps(first: Disk, d: Disk, later: Disk, m: Mutation, files: seq<StoreFile>, p: Path)
    requires TemporariesAccounted(first, d, m, files, {})
    requires forall q :: Calm(d, later, q)
    requires d.WellFormed() && later.WellFormed() && later.files == d.files
    ensures TemporariesAccounted(first, later, m, files, {})
    ensures later.Read(p) == d.Read(p)
  {
    forall j | 0 <= j < 4
      ensures Accounted(first, later, files, {}, Temporary(m, j))
    {
      assert Accounted(first, d, files, {}, Temporary(m, j));
      assert Calm(d, later, Temporary(m, j));
    }
    assert Calm(d, later, p);
  }

  /** Puts the earlier content back and syncs the directory; the accounts of all temporary names stay true. */
  method PutBackDurably(directory: TransactionDirectory, m: Mutation, target: Path, wanted: Option<Bytes>,
                        published: nat, copy: nat, ghost first: Disk)
    returns (ok: bool)
    requires directory.Valid() && directory.dir == target.dir && target !in Temporaries(m.config) && copy < 4
    requires published < |directory.files| && published != copy
    requires directory.files[published].path == target && !directory.files[published].temporary
    requires wanted.None? ==> copy >= |directory.files|
    requires wanted.Some? && copy < |directory.files| ==>
               Waiting(directory.volume.disk, m, directory.files, copy, wanted.value)
               && directory.files[copy].inode != directory.files[published].inode
    requires copy < |directory.files| ==> first.Live(Temporary(m, copy)).None?
    requires TemporariesAccounted(first, directory.volume.disk, m, directory.files, {})
    requires OwnedNames(directory.files) <= Temporaries(m.config)
    modifies directory`files, directory.volume`disk, directory.volume`recent, directory.volume`touched, directory.volume`faults
    ensures directory.Valid() && directory.volume.Moved({target, Temporary(m, copy)})
    ensures directory.volume.disk.files == old(directory.volume.disk).files
    ensures forall p | p !in {target, Temporary(m, copy)} :: Calm(old(directory.volume.disk), directory.volume.disk, p)
    ensures TemporariesAccounted(first, directory.volume.disk, m, directory.files, {})
    ensures OwnedNames(directory.files) <= Temporaries(m.config) + if ok then {} else {target}
    ensures |directory.files| == |old(directory.files)|
    ensures ok ==>
              && directory.volume.disk.Read(target) == wanted
              && directory.volume.disk.Live(target) != Some(old(directory.files)[published].inode)
              && (directory.volume.dirSync ==>
                    directory.volume.disk.At(target).maybe == {directory.volume.disk.Live(target)}
                    && directory.volume.disk.Surely(target, wanted))
              && (wanted.Some? ==> copy < |directory.files| && directory.files[copy].InPlace(directory.volume.disk))
    ensures directory.volume.Faultless() && Undoable(old(directory.volume.disk), old(directory.files), published, copy, wanted) ==> ok
  {
    hide OnlyAt, Volume.Valid, Disk.WellFormed, Temporaries, Temporary, TemporaryName, Sibling, TemporariesAccounted, Undoable;
    TemporariesDiffer(m);
    ghost var before, was := directory.volume.disk, directory.files;
    ok := PutBack(directory, m, target, wanted, published, copy);
    ghost var moved := directory.volume.disk;
    PutBackAccounted(first, before, was, moved, directory.files, m, published, copy,
                     if wanted.Some? then wanted.value else [], target);
    if ok {
      SyncedName(moved, target);
      ok := directory.volume.SyncDirectory(directory.dir);
      SyncKeeps(first, moved, directory.volume.disk, m, directory.files, target);
    }
    forall p | p !in {target, Temporary(m, copy)}
      ensures Calm(before, directory.volume.disk, p)
    {
      assert Calm(moved, directory.volume.disk, p);
    }
  }

  /** Restores the backup after a failure that precedes the publication of the config. */
  method FailBeforeConfig(directory: TransactionDirectory, m: Mutation, prior: Option<Bytes>, ghost first: Disk)
    returns (state: CommitState)
    requires directory.Valid() && directory.dir == m.config.dir
    requires BACKUP < |directory.files| && directory.files[BACKUP].path == BackupPath(m.config)
    requires !directory.files[BACKUP].temporary
    requires prior.None? ==> |directory.files| <= RESTORE
    requires prior.Some? && RESTORE < |directory.files| ==>
               Waiting(directory.volume.disk, m, directory.files, RESTORE, prior.value)
               && directory.files[RESTORE].inode != directory.files[BACKUP].inode
    requires RESTORE < |directory.files| ==> first.Live(Temporary(m, RESTORE)).None?
    requires TemporariesAccounted(first, directory.volume.disk, m, directory.files, {})
    requires OwnedNames(directory.files) <= Temporaries(m.config)
    modifies directory`files, directory.volume`disk, directory.volume`recent, directory.volume`touched, directory.volume`faults
    ensures directory.Valid() && directory.volume.Moved({BackupPath(m.config), Temporary(m, RESTORE)})
    ensures directory.volume.disk.files == old(directory.volume.disk).files
    ensures forall p | p !in {BackupPath(m.config), Temporary(m, RESTORE)} :: Calm(old(directory.volume.disk), directory.volume.disk, p)
    ensures TemporariesAccounted(first, directory.volume.disk, m, directory.files, {})
    ensures OwnedNames(directory.files) <= Temporaries(m.config) + {BackupPath(m.config)}
    ensures state.NotCommitted? || state.RecoveryRequired?
    ensures directory.volume.Faultless() && Undoable(old(directory.volume.disk), old(directory.files), BACKUP, RESTORE, prior) ==>
              state.NotCommitted?
    ensures state.NotCommitted? ==>
              && directory.volume.disk.Read(BackupPath(m.config)) == prior
              && (directory.volume.dirSync ==> directory.volume.disk.Surely(BackupPath(m.config), prior))
              && OwnedNames(directory.files) <= Temporaries(m.config)
  {
    hide OnlyAt, Volume.Valid, Disk.WellFormed, Temporaries, Temporary, TemporaryName, Sibling, TemporariesAccounted;
    TemporariesDiffer(m);
    var stopped := directory.volume.Fault();
    if stopped {
      return RecoveryRequired;
    }
    var ok := directory.Validate(BACKUP);
    if !ok {
      return RecoveryRequired;
    }
    var interrupted := directory.volume.Fault();
    if interrupted {
      return RecoveryRequired;
    }
    ok := PutBackDurably(directory, m, BackupPath(m.config), prior, BACKUP, RESTORE, first);
    if ok {
      var unread := directory.volume.Fault();
      ok := !unread && directory.volume.disk.Read(BackupPath(m.config)) == prior;
    }
    return if ok then NotCommitted else RecoveryRequired;
  }

  /** Undoes a published candidate whose directory sync failed. */
  method RollbackPublishedConfig(directory: TransactionDirectory, m: Mutation, ghost first: Disk)
    returns (state: CommitState)
    requires directory.Valid() && directory.dir == m.config.dir
    requires CANDIDATE < |directory.files| && directory.files[CANDIDATE].path == m.config
    requires !directory.files[CANDIDATE].temporary
    requires m.base.None? ==> |directory.files| <= ROLLBACK
    requires m.base.Some? && ROLLBACK < |directory.files| ==>
               Waiting(directory.volume.disk, m, directory.files, ROLLBACK, m.base.value)
               && directory.files[ROLLBACK].inode != directory.files[CANDIDATE].inode
    requires ROLLBACK < |directory.files| ==> first.Live(Temporary(m, ROLLBACK)).None?
    requires TemporariesAccounted(first, directory.volume.disk, m, directory.files, {})
    requires OwnedNames(directory.files) <= Temporaries(m.config)
    modifies directory`files, directory.volume`disk, directory.volume`recent, directory.volume`touched, directory.volume`faults
    ensures directory.Valid() && directory.volume.Moved({m.config, Temporary(m, ROLLBACK)})
    ensures directory.volume.disk.files == old(directory.volume.disk).files
    ensures forall p | p !in {m.config, Temporary(m, ROLLBACK)} :: Calm(old(directory.volume.disk), directory.volume.disk, p)
    ensures TemporariesAccounted(first, directory.volume.disk, m, directory.files, {})
    ensures OwnedNames(directory.files) <= Temporaries(m.config) + {m.config}
    ensures state.RolledBack? || state.Indeterminate?
    ensures directory.volume.Faultless() && Undoable(old(directory.volume.disk), old(directory.files), CANDIDATE, ROLLBACK, m.base) ==>
              state.RolledBack?
    ensures state.RolledBack? ==>
              && directory.volume.disk.Read(m.config) == m.base
              && directory.volume.disk.Live(m.config) != Some(old(directory.files)[CANDIDATE].inode)
              && (directory.volume.dirSync ==>
                    directory.volume.disk.At(m.config).maybe == {directory.volume.disk.Live(m.config)}
                    && directory.volume.disk.Surely(m.config, m.base))
              && OwnedNames(directory.files) <= Temporaries(m.config)
  {
    hide OnlyAt, Volume.Valid, Disk.WellFormed, Temporaries, Temporary, TemporaryName, Sibling, TemporariesAccounted;
    TemporariesDiffer(m);
    var stopped := directory.volume.Fault();
    if stopped {
      return Indeterminate;
    }
    var ok := directory.Validate(CANDIDATE);
    if !ok {
      return Indeterminate;
    }
    var interrupted := directory.volume.Fault();
    if interrupted {
      return Indeterminate;
    }
    ok := PutBackDurably(directory, m, m.config, m.base, CANDIDATE, ROLLBACK, first);
    if ok && m.base.Some? {
      ok := directory.Validate(ROLLBACK);
    } else if ok {
      var unread := directory.volume.Fault();
      ok := !unread && directory.volume.disk.Read(m.config).None?;
    }
    return if ok then RolledBack else Indeterminate;
  }
}
