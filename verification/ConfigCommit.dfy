/** The whole commit: the lock, the directories and the key, the transaction, the cleanup. */
module ConfigCommit {
  import opened ConfigPublish
  import opened ConfigRestore
  import opened ConfigSafety
  import opened ConfigStore
  import opened Options
  import opened StoreDisk
  import opened StoreFiles
  import opened StoreKey
  import opened StoreVolume

  /** Everything a commit has established when its deferred cleanup begins. */
  ghost predicate Attempted(run: Run, keyTouched: set<Path>, published: Disk, directory: TransactionDirectory,
                            state: CommitState, changed: bool, installed: bool, keyClean: bool)
    reads directory, directory.volume
  {
    var v := directory.volume;
    && directory.Valid() && KeyStep(run, keyTouched, published) && v.disk.WellFormed() && run.dirSync == v.dirSync
    && OnlyAt(published, v.origin, Temporaries(run.m.config) + {BackupPath(run.m.config)})
    && (forall d <- v.past :: Safe(run, d))
    && (forall d <- v.past :: d.Live(run.m.config) != Some(run.candidate))
    && OwnedNames(directory.files) <= Temporaries(run.m.config)
                                      + (if state.RecoveryRequired? then {BackupPath(run.m.config)} else {})
                                      + (if state.Indeterminate? then {run.m.config} else {})
    && (installed <==> state.RolledBack? || state.Indeterminate? || (state.Committed? && changed))
    && v.touched <= Temporaries(run.m.config) + {if installed then run.m.config else BackupPath(run.m.config)}
    && (installed ==>
          && BackupHeld(run.m, v.dirSync, v.origin)
          && exists d <- v.recent :: JustInstalled(run, d))
    && Sound(run, state, changed, v.disk)
  }

  /** The base is checked before and after the private directories are made. */
  method PrepareDirectories(volume: Volume, m: Mutation, ghost found: Disk) returns (ok: bool)
    requires volume.AtCheckpoint() && found.WellFormed() && Grown(found, volume.disk) && found in volume.past + volume.recent
    requires forall d <- volume.past :: Grown(found, d)
    modifies volume`disk, volume`past, volume`recent, volume`origin, volume`touched, volume`faults
    ensures volume.AtCheckpoint() && Grown(found, volume.disk) && found in volume.past + volume.recent
    ensures forall d <- volume.past :: Grown(found, d)
    ensures old(volume.disk).dirs <= volume.disk.dirs
    ensures forall e <- volume.disk.dirs - old(volume.disk).dirs :: Leads(e, m.privateDirs)
    ensures ok ==> found.Read(m.config) == m.base && m.privateDirs <= volume.disk.dirs
    ensures old(volume.faults) <= volume.faults && (volume.Faultless() && found.Read(m.config) == m.base ==> ok)
  {
    ghost var entered, past := volume.disk, volume.past;
    ok := ValidateBaseRevision(volume, m);
    if ok {
      ok := volume.MakePrivateDirectories(m.privateDirs);
      GrownChains(found, entered, volume.disk);
      forall d <- volume.past
        ensures Grown(found, d)
      {
        if d !in past {
          GrownChains(found, entered, d);
        }
      }
    }
    if ok {
      ok := ValidateBaseRevision(volume, m);
    }
  }

  /** The checks, the private directories and the key; afterwards the disk is at a checkpoint. */
  method KeyPhase(volume: Volume, m: Mutation, payload: Bytes, ghost found: Disk)
    returns (ok: bool, key: StagedKey?, keyClean: bool, ghost run: Run, ghost keyTouched: set<Path>)
    requires volume.AtCheckpoint() && m.decoded.Some? && ValidKeyPlan(m) && volume.abandoned == {}
    requires found.WellFormed() && Grown(found, volume.disk) && found in volume.past + volume.recent
    requires forall d <- volume.past :: Grown(found, d)
    modifies volume
    ensures volume.AtCheckpoint()
    ensures run == Run(m, payload, volume.dirSync, found, run.first, key != null, |volume.disk.files|)
    ensures KeyWork(run, keyTouched, volume.disk)
    ensures old(volume.disk).dirs <= run.first.dirs
    ensures forall e <- run.first.dirs - old(volume.disk).dirs :: Leads(e, m.privateDirs)
    ensures found in volume.past
    ensures forall d <- volume.past :: Grown(found, d) || OnlyAt(run.first, d, keyTouched)
    ensures m.config in keyTouched ==> StagesOverConfig(found, m, payload)
    ensures StagesOverConfig(found, m, payload) ==> !ok && keyTouched <= {m.config}
    ensures key != null ==> ok && fresh(key) && key.volume == volume && key.published && !key.closed
                            && Some(key.target) == m.key.path
    ensures ok ==> keyClean && volume.abandoned == {} && run.first.Read(m.config) == m.base
                   && KeySettled(run, volume.disk)
    ensures old(volume.faults) <= volume.faults
    ensures ok ==> (key != null <==> CreatesKey(found, m, payload))
    ensures ok ==> KeySuits(found, m, payload) && KeyHasDirectory(run.first, m, payload)
    ensures !KeyAllowed(found, m, payload) ==> !ok && keyClean && volume.disk == run.first && volume.abandoned == {}
    ensures volume.Faultless() && found.Read(m.config) == m.base && KeySuits(found, m, payload)
            && (CreatesKey(found, m, payload) ==> Leads(m.key.path.value.dir, old(volume.disk).dirs + m.privateDirs)) ==>
              ok
    ensures keyClean ==> Tidy(run, volume.disk, [], volume.abandoned)
    ensures keyClean && key == null && m.key.path.Some? ==>
              volume.disk.Live(m.key.path.value) == found.Live(m.key.path.value)
    ensures keyClean && key == null && m.config !in volume.abandoned ==> volume.disk.Live(m.config) == found.Live(m.config)
  {
    hide OnlyAt, Disk.WellFormed, Temporaries, Temporary, TemporaryName, Sibling, TemporariesAccounted;
    hide Grown, Tidy, KeySuits, KeyAllowed, CreatesKey, KeyPresent, SyncedSince, KeyHasDirectory, KeySettled;
    key, keyClean := null, true;
    ghost var entered := volume.disk;
    ok := PrepareDirectories(volume, m, found);
    ghost var first := volume.disk;
    GrownAnswersSame(found, first, m, payload);
    if !KeyAllowed(first, m, payload) {
      RefusedKey(first, m, payload);
    }
    KeyDirectoryArrives(first, entered.dirs + m.privateDirs, m, payload);
    if ok {
      ok, key, keyClean := PublishKey(volume, m, payload);
    }
    keyTouched := volume.touched;
    run := Run(m, payload, volume.dirSync, found, first, key != null, |volume.disk.files|);
    if ok {
      KeyEndsSettled(run, volume.disk);
    }
    assert m.config !in KeyNames(m) ==> Calm(first, volume.disk, m.config);
    if keyClean {
      KeyLeavesTidy(run, volume.disk, volume.abandoned);
    }
    volume.Checkpoint();
  }

  /** The transaction of a commit that has something to change, once the key is settled. */
  method Replace(directory: TransactionDirectory, m: Mutation, ghost run: Run, ghost keyTouched: set<Path>, ghost published: Disk)
    returns (state: CommitState, ghost installed: bool)
    requires directory.Valid() && directory.files == [] && directory.dir == m.config.dir
    requires KeyStep(run, keyTouched, published) && run.m == m && run.dirSync == directory.volume.dirSync
    requires run.first.Read(m.config) == m.base && Tidy(run, published, [], {}) && KeySettled(run, published)
    requires directory.volume.abandoned == {} && directory.volume.AtCheckpoint() && directory.volume.disk == published
    requires forall d <- directory.volume.past :: Grown(run.found, d) || OnlyAt(run.first, d, keyTouched)
    modifies directory`files, directory.volume
    ensures Attempted(run, keyTouched, published, directory, state, true, installed, true)
    ensures Tidy(run, directory.volume.disk, directory.files, directory.volume.abandoned)
    ensures old(directory.volume.past) <= directory.volume.past
    ensures m.key.path.Some? ==> directory.volume.disk.Live(m.key.path.value) == published.Live(m.key.path.value)
    ensures old(directory.volume.faults) <= directory.volume.faults
    ensures directory.volume.Faultless() && TemporariesFree(run.first, m) ==> state.Committed?
    ensures state.Committed? ==> TemporariesFree(run.first, m)
    ensures state.Committed? ==> directory.volume.abandoned == {} && AllRemovable(directory.volume.disk, directory.files)
    ensures directory.volume.faults <= old(directory.volume.faults) + 1 ==> !state.RecoveryRequired?
  {
    hide Disk.WellFormed, Temporaries, Temporary, TemporaryName, Sibling, TemporariesAccounted, Safe;
    hide TemporariesFree, Sound, BackupHeld, Installed, Tidy, OnlyAt, KeyPresent, BackupAsFound, AllRemovable;
    hide SyncedSince, JustPublished, JustInstalled, Grown, KeySettled;
    UntouchedIsSound(run, keyTouched, published);
    OnlyAtSelf(published, Temporaries(m.config) + {BackupPath(m.config)});
    KeyStepKeepsConfig(run, keyTouched, published);
    KeyLeavesTemporaries(run, published);
    state, installed := Transact(directory, m, published);
    PastIsSafe(run, keyTouched, published, directory.volume.past);
    TransactedIsSound(run, keyTouched, published, directory.volume.origin, directory.volume.disk,
                      directory.volume.touched, state, installed);
    if installed {
      PublishedIsInstalled(run, published, directory.volume.recent);
    }
    StagingStaysTidy(run, published, directory.volume.disk, directory.files, directory.volume.abandoned);
  }

  method Attempt(directory: TransactionDirectory, m: Mutation, payload: Bytes, ghost found: Disk)
    returns (state: CommitState, changed: bool, key: StagedKey?, keyClean: bool,
             ghost run: Run, ghost keyTouched: set<Path>, ghost published: Disk, ghost installed: bool)
    requires directory.Valid() && directory.files == [] && directory.dir == m.config.dir
    requires m.decoded.Some? && ValidKeyPlan(m) && !StagesOverConfig(found, m, payload)
    requires m.config.dir in directory.volume.disk.dirs
    requires forall e <- directory.volume.disk.dirs - found.dirs :: m.base.None? && e <= m.config.dir
    requires directory.volume.abandoned == {} && directory.volume.AtCheckpoint()
    requires found.WellFormed() && Grown(found, directory.volume.disk) && found in directory.volume.past + directory.volume.recent
    requires forall d <- directory.volume.past :: Grown(found, d)
    modifies directory`files, directory.volume
    ensures run == Run(m, payload, directory.volume.dirSync, found, run.first, key != null, run.candidate)
    ensures old(directory.volume.disk).dirs <= run.first.dirs
    ensures forall e <- run.first.dirs - old(directory.volume.disk).dirs :: Leads(e, m.privateDirs)
    ensures Attempted(run, keyTouched, published, directory, state, changed, installed, keyClean)
    ensures key != null ==> fresh(key) && key.volume == directory.volume && key.published && !key.closed
                            && Some(key.target) == m.key.path
    ensures key != null ==> keyClean
    ensures old(directory.volume.faults) <= directory.volume.faults
    ensures directory.volume.Faultless() && Committable(found, m, payload) && MadeFor(m) <= old(directory.volume.disk).dirs + m.privateDirs ==>
              state.Committed? && (changed <==> m.base != Some(m.candidate))
    ensures state.Committed? ==>
              && keyClean && (key != null <==> CreatesKey(found, m, payload))
              && Committable(found, m, payload) && (changed <==> m.base != Some(m.candidate))
              && directory.volume.abandoned == {} && AllRemovable(directory.volume.disk, directory.files)
    ensures directory.volume.faults <= old(directory.volume.faults) + 1 ==> !state.RecoveryRequired?
    ensures !KeyAllowed(found, m, payload) ==>
              state.NotCommitted? && key == null && keyClean && directory.files == [] && directory.volume.disk == run.first
              && directory.volume.abandoned == {}
    ensures found in directory.volume.past
    ensures keyClean ==> Tidy(run, directory.volume.disk, directory.files, directory.volume.abandoned)
    ensures keyClean && key == null && m.key.path.Some? ==>
              directory.volume.disk.Live(m.key.path.value) == found.Live(m.key.path.value)
  {
    hide Disk.WellFormed, Temporaries, Temporary, TemporaryName, Sibling, TemporariesAccounted, Safe, Grown, OnlyAt;
    hide KeySuits, KeyAllowed, CreatesKey, TemporariesFree, Sound, BackupHeld, Installed, Tidy, BackupAsFound, KeySettled, JustInstalled;
    TemporariesDiffer(m);
    changed, installed, state := false, false, NotCommitted;
    var ok;
    ghost var entered := directory.volume.disk;
    MoreIsFound(found, entered, m, payload);
    ok, key, keyClean, run, keyTouched := KeyPhase(directory.volume, m, payload, found);
    published := directory.volume.disk;
    PastIsSafe(run, keyTouched, published, directory.volume.past);
    UntouchedIsSound(run, keyTouched, published);
    OnlyAtSelf(published, Temporaries(m.config) + {BackupPath(m.config)});
    if ok {
      var interrupted := directory.volume.Fault();
      ok := !interrupted;
    }
    if !ok {
      return;
    }
    if m.base == Some(m.candidate) {
      CommittableWas(run, entered);
      state := Committed;
      return;
    }
    changed := true;
    FreeAsFound(run);
    state, installed := Replace(directory, m, run, keyTouched, published);
    if state.Committed? {
      CommittableWas(run, entered);
    }
  }

  /** The deferred cleanup of the staged files. */
  method CleanUp(directory: TransactionDirectory, ghost run: Run, ghost keyTouched: set<Path>, ghost published: Disk,
                 state: CommitState, ghost changed: bool, ghost installed: bool, ghost keyClean: bool)
    returns (ok: bool)
    requires Attempted(run, keyTouched, published, directory, state, changed, installed, keyClean)
    requires keyClean ==> Tidy(run, directory.volume.disk, directory.files, directory.volume.abandoned)
    modifies directory`files, directory.volume`disk, directory.volume`recent, directory.volume`touched, directory.volume`faults
    ensures directory.volume.Valid() && directory.volume.disk.WellFormed()
    ensures directory.volume.disk.files == old(directory.volume.disk).files
    ensures forall d <- directory.volume.past + directory.volume.recent :: Safe(run, d)
    ensures Sound(run, state, changed, directory.volume.disk)
    ensures old(directory.files) == [] ==> directory.volume.disk == old(directory.volume.disk)
    ensures installed <==> exists d <- directory.volume.past + directory.volume.recent :: d.Live(run.m.config) == Some(run.candidate)
    ensures installed ==> exists d <- directory.volume.past + directory.volume.recent :: JustInstalled(run, d)
    ensures run.created ==> KeyPresent(run.dirSync, directory.volume.disk, run.m.key.path.value, run.payload)
    ensures run.m.key.path.Some? ==>
              directory.volume.disk.Live(run.m.key.path.value) == old(directory.volume.disk).Live(run.m.key.path.value)
    ensures old(directory.volume.past) + old(directory.volume.recent) <= directory.volume.past + directory.volume.recent
    ensures ok && keyClean ==> LeavesOnly(run, directory.volume.disk, directory.volume.abandoned)
    ensures old(directory.volume.faults) <= directory.volume.faults
    ensures directory.volume.Faultless() && AllRemovable(old(directory.volume.disk), old(directory.files)) ==> ok
  {
    hide Disk.WellFormed, Temporaries, Temporary, TemporaryName, Sibling, TemporariesAccounted, Safe, Sound, Tidy;
    hide OnlyAt, Reserved, BackupHeld, KeyPresent;
    ghost var v := directory.volume;
    ghost var before, files := v.disk, directory.files;
    ok := directory.Cleanup();
    CleanupKeepsSound(run, state, changed, before, v.disk, OwnedNames(files));
    RecentStaysSafe(v, run, keyTouched, published, installed);
    if ok && keyClean {
      SafeIsFramed(run, v.disk);
      CleanupTidies(run, before, v.disk, files, v.abandoned);
    }
    if run.m.key.path.Some? {
      KeyIsNeverOwned(run, state, files);
      assert v.disk.At(run.m.key.path.value) == before.At(run.m.key.path.value);
    }
  }

  lemma RecentStaysSafe(v: Volume, run: Run, keyTouched: set<Path>, published: Disk, installed: bool)
    requires v.Valid() && KeyStep(run, keyTouched, published) && run.dirSync == v.dirSync
    requires OnlyAt(published, v.origin, Temporaries(run.m.config) + {BackupPath(run.m.config)})
    requires v.touched <= Temporaries(run.m.config) + {if installed then run.m.config else BackupPath(run.m.config)}
    requires installed ==> BackupHeld(run.m, run.dirSync, v.origin)
    ensures v.disk.WellFormed()
    ensures forall d <- v.recent :: Safe(run, d)
    ensures !installed ==> forall d <- v.recent :: d.Live(run.m.config) != Some(run.candidate)
    ensures run.created ==> KeyPresent(run.dirSync, v.disk, run.m.key.path.value, run.payload)
  {
    RecentIsSafe(run, keyTouched, published, v.origin, v.recent, v.touched, installed);
  }

  /**
   A temporary file whose mode change failed: the commit ends NotCommitted, no staged file is
   left for the cleanup to fail on, and yet the temporary name stays.
   */
  lemma FailedModeChangeIsLeftBehind(directory: TransactionDirectory, run: Run, keyTouched: set<Path>, published: Disk)
    requires directory.files == [] && KeyStep(run, keyTouched, published) && Tidy(run, published, [], {})
    requires directory.volume.Valid() && directory.volume.origin == published && run.dirSync == directory.volume.dirSync
    requires published.Live(Temporary(run.m, CANDIDATE)).None?
    requires directory.volume.disk == published.Create(Temporary(run.m, CANDIDATE), ModeFault)
    requires directory.volume.touched == directory.volume.abandoned == {Temporary(run.m, CANDIDATE)}
    requires forall d <- directory.volume.past :: Grown(run.found, d) || OnlyAt(run.first, d, keyTouched)
    ensures Attempted(run, keyTouched, published, directory, NotCommitted, true, false, true)
    ensures Tidy(run, directory.volume.disk, directory.files, directory.volume.abandoned)
    ensures AllRemovable(directory.volume.disk, directory.files)
    ensures LeavesOnly(run, directory.volume.disk, directory.volume.abandoned)
    ensures directory.volume.disk.Live(Temporary(run.m, CANDIDATE)) != run.first.Live(Temporary(run.m, CANDIDATE))
  {
    hide TemporariesAccounted, Tidy, KeyWork, Safe, LeavesOnly, Temporary, Temporaries;
    var v := directory.volume;
    TemporariesDiffer(run.m);
    UntouchedIsSound(run, keyTouched, published);
    CreateOnlyAt(published, Temporary(run.m, CANDIDATE), ModeFault);
    OnlyAtSelf(published, Temporaries(run.m.config) + {BackupPath(run.m.config)});
    PastIsSafe(run, keyTouched, published, v.past);
    RecentStaysSafe(v, run, keyTouched, published, false);
    LeftoverIsTidy(run, keyTouched, published, v.disk);
  }

  lemma LeftoverIsTidy(run: Run, keyTouched: set<Path>, published: Disk, d: Disk)
    requires KeyStep(run, keyTouched, published) && Tidy(run, published, [], {}) && Safe(run, d)
    requires published.Live(Temporary(run.m, CANDIDATE)).None? && d == published.Create(Temporary(run.m, CANDIDATE), ModeFault)
    ensures Tidy(run, d, [], {Temporary(run.m, CANDIDATE)}) && LeavesOnly(run, d, {Temporary(run.m, CANDIDATE)})
    ensures d.Live(Temporary(run.m, CANDIDATE)) != run.first.Live(Temporary(run.m, CANDIDATE))
    ensures Sound(run, NotCommitted, false, d)
  {
    hide TemporariesAccounted, Tidy;
    var temp := Temporary(run.m, CANDIDATE);
    TemporariesDiffer(run.m);
    CreateOnlyAt(published, temp, ModeFault);
    CreatedIsAccounted(published, d, run.m);
    KeyStepKeepsConfig(run, keyTouched, published);
    assert Calm(published, d, BackupPath(run.m.config)) && Calm(published, d, run.m.config);
    StagingStaysTidy(run, published, d, [], {temp});
    CleanupTidies(run, d, d, [], {temp});
  }

  lemma CreatedIsAccounted(published: Disk, d: Disk, m: Mutation)
    requires published.Live(Temporary(m, CANDIDATE)).None? && d == published.Create(Temporary(m, CANDIDATE), ModeFault)
    ensures TemporariesAccounted(published, d, m, [], {Temporary(m, CANDIDATE)})
  {
    TemporariesDiffer(m);
    forall k | 0 <= k < 4
      ensures Accounted(published, d, [], {Temporary(m, CANDIDATE)}, Temporary(m, k))
    {
      assert k != CANDIDATE ==> d.Live(Temporary(m, k)) == published.Live(Temporary(m, k));
    }
  }

  /** The cleanup of that commit then reports no error and misses the file. */
  method CleanUpMissesLeftover(directory: TransactionDirectory, ghost run: Run, ghost keyTouched: set<Path>, ghost published: Disk)
    returns (ok: bool)
    requires directory.files == [] && KeyStep(run, keyTouched, published) && Tidy(run, published, [], {})
    requires directory.volume.Valid() && directory.volume.origin == published && run.dirSync == directory.volume.dirSync
    requires published.Live(Temporary(run.m, CANDIDATE)).None?
    requires directory.volume.disk == published.Create(Temporary(run.m, CANDIDATE), ModeFault)
    requires directory.volume.touched == directory.volume.abandoned == {Temporary(run.m, CANDIDATE)}
    requires forall d <- directory.volume.past :: Grown(run.found, d) || OnlyAt(run.first, d, keyTouched)
    modifies directory`files, directory.volume`disk, directory.volume`recent, directory.volume`touched, directory.volume`faults
    ensures directory.volume.Faultless() ==>
              ok && directory.volume.disk.Live(Temporary(run.m, CANDIDATE)) != run.first.Live(Temporary(run.m, CANDIDATE))
  {
    hide Attempted, Tidy, KeyStep, OnlyAt, Temporaries, Temporary, Safe, Sound, Volume.Valid, Disk.WellFormed;
    TemporariesDiffer(run.m);
    KeyIsNoTemporary(run, keyTouched, published);
    FailedModeChangeIsLeftBehind(directory, run, keyTouched, published);
    ok := CleanUp(directory, run, keyTouched, published, NotCommitted, true, false, true);
  }

  lemma KeyIsNoTemporary(run: Run, keyTouched: set<Path>, published: Disk)
    requires KeyStep(run, keyTouched, published)
    ensures run.m.key.path != Some(Temporary(run.m, CANDIDATE))
  {
    TemporariesDiffer(run.m);
  }

  /** Keeps a new key with a committed or indeterminate config, and takes it back otherwise. */
  method SettleKey(volume: Volume, key: StagedKey, keep: bool, ghost run: Run, state: CommitState, ghost changed: bool)
    returns (ok: bool)
    requires volume.Valid() && key.volume == volume && key.published && !key.closed
    requires run.created && run.dirSync == volume.dirSync && Some(key.target) == run.m.key.path
    requires key.target !in Reserved(run.m.config) && run.first.WellFormed() && run.first.Live(key.target).None?
    requires forall d <- volume.past + volume.recent :: Safe(run, d)
    requires volume.disk.WellFormed() && Sound(run, state, changed, volume.disk)
    requires keep <==> state.Committed? || state.Indeterminate?
    requires !keep ==> volume.disk.Live(run.m.config) != Some(run.candidate)
                       && (run.dirSync ==> Some(run.candidate) !in volume.disk.At(run.m.config).maybe)
    requires KeyPresent(run.dirSync, volume.disk, key.target, run.payload)
    modifies key`closed, volume`disk, volume`recent, volume`touched, volume`past, volume`origin, volume`faults
    ensures volume.Valid() && volume.disk.WellFormed()
    ensures forall d <- volume.past + volume.recent :: Safe(run, d)
    ensures old(volume.past) + old(volume.recent) <= volume.past + volume.recent
    ensures forall d <- volume.past + volume.recent ::
              d in old(volume.past) + old(volume.recent) || d.Live(run.m.config) != Some(run.candidate)
    ensures Sound(run, state, changed, volume.disk)
    ensures keep ==> KeyPresent(run.dirSync, volume.disk, key.target, run.payload)
    ensures !keep && ok ==> volume.disk.Live(key.target).None?
    ensures old(volume.faults) <= volume.faults && (volume.Faultless() && keep ==> ok)
    ensures forall p | p != key.target :: volume.disk.Live(p) == old(volume.disk).Live(p)
  {
    hide Disk.WellFormed, Safe, Sound, Reserved, KeyPresent;
    if keep {
      ok := key.Finish();
      return;
    }
    volume.Checkpoint();
    ghost var settled := volume.disk;
    ok := key.Rollback();
    forall p | p != key.target
      ensures volume.disk.Live(p) == settled.Live(p)
    {
      assert Calm(settled, volume.disk, p);
    }
    KeyRollbackKeepsSound(run, state, changed, settled, volume.disk, key.target);
    forall d <- volume.recent
      ensures Safe(run, d) && d.Live(run.m.config) != Some(run.candidate)
    {
      OnlyTargetMoved(settled, d, volume.touched, key.target);
      KeyRollbackIsSafe(run, settled, d);
      ConfigNotTarget(settled, d, run.m, key.target);
    }
  }

  /**
   Staging the key under the config's own name breaks the promise that a commit which is not
   committed left the config alone: the file stays if its mode change failed.
   */
  lemma StagingSparesConfigExactly(run: Run)
    requires run.first.WellFormed() && run.m.key.path.Some? && run.first.Read(run.m.config) == run.m.base
    ensures (forall fault :: Sound(run, NotCommitted, false, run.first.Create(TempKeyPath(run.m.key.path.value), fault))) <==>
            !(run.m.base.None? && TempKeyPath(run.m.key.path.value) == run.m.config)
  {
    var temp := TempKeyPath(run.m.key.path.value);
    TempKeyIsNoBackup(run.m.key.path.value, run.m.config);
    assert !Calm(run.first, run.first.Create(run.m.config, ModeFault), run.m.config) || run.first.Live(run.m.config).Some?;
    forall fault
      ensures (run.m.base.None? && temp == run.m.config) || Sound(run, NotCommitted, false, run.first.Create(temp, fault))
    {
      CreateOnlyAt(run.first, temp, fault);
    }
    assert run.m.base.None? && temp == run.m.config ==> !Sound(run, NotCommitted, false, run.first.Create(temp, ModeFault));
  }

  /** For every key path there is a mutation that is accepted and stages the key over its own config. */
  lemma TemporaryKeyMayBeTheConfig(key: Path, d: Disk, payload: Bytes)
    requires KeyText(payload) && d.Live(key).None?
    ensures exists m: Mutation :: WellAsked(m) && m.key.path == Some(key) && StagesOverConfig(d, m, payload)
  {
    var m := Mutation(TempKeyPath(key), None, [0], Some(Some(key)), KeyPlan(IntentEnsure, Some(key), [], false), {});
    assert forall p <- Reserved(m.config) :: |p.name| >= |m.config.name| > |key.name|;
    AcceptableIs(m);
    assert WellAsked(m) && m.key.path == Some(key) && StagesOverConfig(d, m, payload);
  }

  /** The promises of a commit about the disk it found, every state it went through, and the one it left. */
  ghost predicate Promised(volume: Volume, run: Run, result: CommitResult, cleanupOk: bool, keyOk: bool)
    reads volume
    requires volume.disk.WellFormed() && run.first.WellFormed()
  {
    && volume.disk in volume.recent && run.found in volume.past + volume.recent
    && (forall d <- volume.past + volume.recent :: Safe(run, d))
    // the directories
    && Grown(run.found, run.first) && (forall e <- run.first.dirs - run.found.dirs :: Leads(e, MadeFor(run.m)))
    && (result.state.Committed? || result.configChanged || run.created ==> Placed(run))
    // the final state
    && Sound(run, result.state, result.configChanged, volume.disk)
    && (result.configChanged ==> result.state.Committed?)
    && (result.configChanged || result.state.RolledBack? || result.state.Indeterminate? <==>
        exists d <- volume.past + volume.recent :: d.Live(run.m.config) == Some(run.candidate))
    && (result.configChanged || result.state.RolledBack? || result.state.Indeterminate? ==>
        exists d <- volume.past + volume.recent :: JustInstalled(run, d))
    && result.backupPath == (if result.configChanged && run.m.base.Some? then Some(BackupPath(run.m.config)) else None)
    // the key
    && (result.keyCreated <==> run.created && (result.state.Committed? || result.state.Indeterminate?))
    && (result.keyCreated ==>
          run.m.key.path.Some? && KeyPresent(run.dirSync, volume.disk, run.m.key.path.value, run.payload))
    && (keyOk && !result.keyCreated && run.m.key.path.Some? ==>
          volume.disk.Live(run.m.key.path.value) == run.first.Live(run.m.key.path.value))
    // what is left behind
    && (cleanupOk && keyOk ==> LeavesOnly(run, volume.disk, volume.abandoned))
  }

  /** What a commit that went through reports. */
  ghost predicate Succeeded(found: Disk, m: Mutation, payload: Bytes, result: CommitResult) {
    && (result.configChanged <==> m.base != Some(m.candidate))
    && (result.keyCreated <==> CreatesKey(found, m, payload))
    && result.backupPath == (if m.base.Some? && m.base != Some(m.candidate) then Some(BackupPath(m.config)) else None)
  }

  /** What is left of the promises when the new key is staged under the name of the config. */
  ghost predicate Refused(volume: Volume, run: Run, result: CommitResult, keyOk: bool)
    reads volume
  {
    && result == CommitResult(NotCommitted, false, false, None)
    && (forall d <- volume.past + volume.recent :: OnlyNames(run.found, d, {run.m.config}) && DirectoriesKept(run.found, d))
    && volume.disk in volume.recent && run.found in volume.past + volume.recent
    && (keyOk && run.m.config !in volume.abandoned ==> volume.disk.Live(run.m.config) == run.found.Live(run.m.config))
  }

  /** The directories above a config that is new, then the lock. */
  method AcquireLock(volume: Volume, m: Mutation) returns (ok: bool)
    requires volume.AtCheckpoint()
    modifies volume`disk, volume`past, volume`recent, volume`origin, volume`touched, volume`faults
    ensures volume.AtCheckpoint() && old(volume.past) <= volume.past && old(volume.disk) in volume.past + volume.recent
    ensures Grown(old(volume.disk), volume.disk)
    ensures forall e <- volume.disk.dirs - old(volume.disk).dirs :: m.base.None? && e <= m.config.dir
    ensures forall d <- volume.past :: d in old(volume.past) || Grown(old(volume.disk), d)
    ensures ok ==> m.config.dir in volume.disk.dirs
    ensures old(volume.faults) <= volume.faults
    ensures volume.Faultless() && (m.base.Some? ==> m.config.dir in old(volume.disk).dirs) ==> ok
  {
    if m.base.None? {
      ok := volume.MakeChain(m.config.dir);
    } else {
      ok := m.config.dir in volume.disk.dirs;
    }
    if ok {
      var locked := volume.Fault();
      ok := !locked;
    }
  }

  /**
   The whole commit. `cleanupOk` and `keyOk` say that neither the cleanup of the staged
   files nor any rollback of the key reported an error.
   */
  method Commit(volume: Volume, m: Mutation, payload: Bytes)
    returns (result: CommitResult, cleanupOk: bool, keyOk: bool, ghost run: Run)
    requires volume.disk.WellFormed()
    modifies volume
    ensures volume.disk.WellFormed() && run.first.WellFormed()
    ensures run == Run(m, payload, volume.dirSync, old(volume.disk), run.first, run.created, run.candidate)
    ensures if WellAsked(m) && StagesOverConfig(old(volume.disk), m, payload) then Refused(volume, run, result, keyOk)
            else Promised(volume, run, result, cleanupOk, keyOk)
    // when it goes through
    ensures result.state.Committed? ==>
              WellAsked(m) && Committable(old(volume.disk), m, payload) && Succeeded(old(volume.disk), m, payload, result)
    ensures volume.Faultless() && WellAsked(m) && Committable(old(volume.disk), m, payload) ==>
              result.state.Committed? && cleanupOk && keyOk
    // what it refuses whatever happens
    ensures !WellAsked(m) ==> result == CommitResult(NotCommitted, false, false, None) && volume.disk == old(volume.disk)
    ensures WellAsked(m) && !KeyAllowed(old(volume.disk), m, payload) ==>
              result == CommitResult(NotCommitted, false, false, None) && Grown(old(volume.disk), volume.disk)
    ensures WellAsked(m) && m.key.path.Some? && old(volume.disk).Live(m.key.path.value).Some? ==>
              KeyKept(old(volume.disk), volume.disk, m.key.path.value)
    ensures result.state.Committed? ==> volume.abandoned == {}
    ensures volume.faults <= old(volume.faults) + 1 ==> !result.state.RecoveryRequired?
  {
    hide Disk.WellFormed, Temporaries, Temporary, TemporaryName, Sibling, TemporariesAccounted, Safe, Sound;
    hide OnlyAt, Reserved, BackupHeld, KeyPresent, Volume.Valid, KeySuits, KeyAllowed, Grown, WellAsked, ValidKeyPlan, KeyText, GeneratedKey;
    AcceptableIs(m);
    volume.past, volume.recent, volume.abandoned := {}, {}, {};
    volume.Checkpoint();
    ghost var found := volume.disk;
    GrownFromItself(found);
    cleanupOk, keyOk := true, true;
    result := CommitResult(NotCommitted, false, false, None);
    run := Run(m, payload, volume.dirSync, found, found, false, |volume.disk.files|);
    NothingHappened(run);
    if m.candidate == [] || |m.candidate| > MAX_CONFIG_BYTES || m.decoded.None? || !ValidKeyPlan(m) {
      return;
    }
    var locked := AcquireLock(volume, m);
    if !locked {
      run := Run(m, payload, volume.dirSync, found, volume.disk, false, |volume.disk.files|);
      NothingHappened(run);
      MadeAsAsked(run, volume.disk);
      RefusedBefore(run, volume.past + volume.recent);
      return;
    }
    GrownAnswersSame(found, volume.disk, m, payload);
    MatrixMeans(volume.disk, m, payload);
    // The program goes through the same steps either way; only what they achieve differs.
    if m.base.None? && m.key.path.Some? && TempKeyPath(m.key.path.value) == m.config
       && KeyCommitMode(m.key, KeyStateAt(volume.disk, m), payload) == Some(Create) {
      result, cleanupOk, keyOk, run := CommitOverConfig(volume, m, payload, found);
    } else {
      result, cleanupOk, keyOk, run := CommitLocked(volume, m, payload, found);
      if m.key.path.Some? && found.Live(m.key.path.value).Some? {
        ExistingKeyStays(run, volume.disk);
      }
    }
  }

  /** An existing key shows the same file with the same bytes, no less certainly. */
  ghost predicate KeyKept(d: Disk, later: Disk, key: Path)
    requires d.WellFormed() && later.WellFormed()
  {
    Calm(d, later, key) && later.Read(key) == d.Read(key)
  }

  lemma ExistingKeyStays(run: Run, d: Disk)
    requires Safe(run, d) && run.found.WellFormed() && Grown(run.found, run.first)
    requires run.m.key.path.Some? && run.found.Live(run.m.key.path.value).Some?
    ensures KeyKept(run.found, d, run.m.key.path.value)
  {
    CalmKeepsContent(run.first, d, run.m.key.path.value, None);
  }

  lemma AttemptedFacts(run: Run, keyTouched: set<Path>, published: Disk, directory: TransactionDirectory,
                       state: CommitState, changed: bool, installed: bool, keyClean: bool)
    requires Attempted(run, keyTouched, published, directory, state, changed, installed, keyClean)
    ensures directory.Valid() && directory.volume.disk.WellFormed() && run.dirSync == directory.volume.dirSync
    ensures run.first.WellFormed() && |run.first.files| <= run.candidate
    ensures run.found.WellFormed() && Grown(run.found, run.first)
    ensures run.first.Live(run.m.config) == run.found.Live(run.m.config)
    ensures run.m.key.path.Some? ==> run.m.key.path.value !in Reserved(run.m.config)
                                     && run.first.Live(run.m.key.path.value) == run.found.Live(run.m.key.path.value)
    ensures run.created ==> run.m.key.path.Some? && run.first.Live(run.m.key.path.value).None?
                            && run.m.key.path.value.dir in run.first.dirs
    ensures installed <==> state.RolledBack? || state.Indeterminate? || (state.Committed? && changed)
  {
  }

  /** A commit that would stage its key over its own config fails before it moves anything else. */
  method CommitOverConfig(volume: Volume, m: Mutation, payload: Bytes, ghost found: Disk)
    returns (result: CommitResult, cleanupOk: bool, keyOk: bool, ghost run: Run)
    requires volume.AtCheckpoint() && m.decoded.Some? && ValidKeyPlan(m) && StagesOverConfig(found, m, payload)
    requires volume.abandoned == {} && found.WellFormed() && Grown(found, volume.disk) && found in volume.past + volume.recent
    requires forall d <- volume.past :: Grown(found, d)
    modifies volume
    ensures volume.disk.WellFormed() && run.first.WellFormed() && old(volume.faults) <= volume.faults
    ensures run == Run(m, payload, volume.dirSync, found, run.first, run.created, run.candidate)
    ensures Refused(volume, run, result, keyOk)
    ensures !Committable(found, m, payload) && KeyAllowed(found, m, payload)
  {
    hide Disk.WellFormed, Temporaries, Temporary, TemporaryName, Sibling, TemporariesAccounted, KeyText;
    var directory := new TransactionDirectory(volume, m.config.dir);
    var ok, key;
    ghost var keyTouched;
    ok, key, keyOk, run, keyTouched := KeyPhase(volume, m, payload, found);
    ghost var published := volume.disk;
    cleanupOk := directory.Cleanup();
    forall d <- volume.past + volume.recent
      ensures OnlyNames(found, d, {m.config}) && DirectoriesKept(found, d)
    {
      if d in volume.recent {
        OnlyAtChains(run.first, published, d, keyTouched, volume.touched);
        OnlyAtWider(run.first, d, keyTouched + volume.touched, {m.config});
      }
      SpoiledIsKept(run, keyTouched, d);
    }
    result := CommitResult(NotCommitted, false, false, None);
  }

  /** A failed mode change leaves an empty file as the config of such a commit, against the claim of NotCommitted. */
  lemma OverwriteIsUnsound(run: Run, d: Disk)
    requires run.found.WellFormed() && Grown(run.found, run.first) && run.m.base.None?
    requires run.found.Read(run.m.config) == run.m.base && d == run.first.Create(run.m.config, ModeFault)
    ensures d.WellFormed() && d.Read(run.m.config) == Some([]) && !Sound(run, NotCommitted, false, d)
    ensures OnlyAt(run.first, d, {run.m.config})
  {
    CreateOnlyAt(run.first, run.m.config, ModeFault);
    assert !Calm(run.first, d, run.m.config);
  }

  /**
   The end of a commit that staged its key over its own config and failed to set the mode of the
   file: nothing reports an error while cleaning up, all that is promised of a refused commit
   holds, and the claim of NotCommitted does not.
   */
  method CleanUpMissesOverwrite(directory: TransactionDirectory, ghost run: Run) returns (ok: bool)
    requires directory.files == [] && directory.volume.AtCheckpoint()
    requires run.found.WellFormed() && Grown(run.found, run.first) && StagesOverConfig(run.found, run.m, run.payload)
    requires run.found.Read(run.m.config) == run.m.base
    requires directory.volume.disk == run.first.Create(run.m.config, ModeFault)
    requires directory.volume.abandoned == {run.m.config} && run.found in directory.volume.past
    requires forall d <- directory.volume.past :: Grown(run.found, d) || OnlyAt(run.first, d, {run.m.config})
    modifies directory`files, directory.volume`disk, directory.volume`recent, directory.volume`touched, directory.volume`faults
    ensures directory.volume.Faultless() ==> ok
    ensures Refused(directory.volume, run, CommitResult(NotCommitted, false, false, None), true)
    ensures directory.volume.disk.WellFormed() && run.first.WellFormed()
    ensures directory.volume.disk.Read(run.m.config) == Some([]) && !Sound(run, NotCommitted, false, directory.volume.disk)
  {
    hide Disk.WellFormed, Sound, KeyText;
    ghost var left := directory.volume.disk;
    OverwriteIsUnsound(run, left);
    ok := directory.Cleanup();
    forall d <- directory.volume.past + directory.volume.recent
      ensures OnlyNames(run.found, d, {run.m.config}) && DirectoriesKept(run.found, d)
    {
      if d in directory.volume.recent {
        OnlyAtChains(run.first, left, d, {run.m.config}, directory.volume.touched);
        OnlyAtWider(run.first, d, {run.m.config} + directory.volume.touched, {run.m.config});
      }
      SpoiledIsKept(run, {run.m.config}, d);
    }
    SoundSees(run, left, directory.volume.disk);
  }

  /** The claim of NotCommitted is about two entries and the bytes behind them. */
  lemma SoundSees(run: Run, d: Disk, later: Disk)
    requires run.first.WellFormed() && d.WellFormed() && later.WellFormed() && later.files == d.files
    requires forall p :: later.At(p) == d.At(p)
    ensures Sound(run, NotCommitted, false, later) <==> Sound(run, NotCommitted, false, d)
    ensures later.Read(run.m.config) == d.Read(run.m.config)
  {
  }

  method CommitLocked(volume: Volume, m: Mutation, payload: Bytes, ghost found: Disk)
    returns (result: CommitResult, cleanupOk: bool, keyOk: bool, ghost run: Run)
    requires volume.AtCheckpoint() && m.decoded.Some? && ValidKeyPlan(m) && !StagesOverConfig(found, m, payload)
    requires volume.abandoned == {} && found.WellFormed() && Grown(found, volume.disk) && found in volume.past + volume.recent
    requires forall d <- volume.past :: Grown(found, d)
    requires m.config.dir in volume.disk.dirs && forall e <- volume.disk.dirs - found.dirs :: m.base.None? && e <= m.config.dir
    modifies volume
    ensures volume.disk.WellFormed() && run.first.WellFormed()
    ensures run == Run(m, payload, volume.dirSync, found, run.first, run.created, run.candidate)
    ensures Promised(volume, run, result, cleanupOk, keyOk)
    ensures old(volume.faults) <= volume.faults
    ensures volume.Faultless() && Committable(found, m, payload) ==> cleanupOk && keyOk
    ensures result.state.Committed? ==> Committable(found, m, payload) && Succeeded(found, m, payload, result)
    ensures volume.Faultless() && Committable(found, m, payload) ==> result.state.Committed?
    ensures !KeyAllowed(found, m, payload) ==>
              result == CommitResult(NotCommitted, false, false, None) && keyOk && volume.disk == run.first && volume.abandoned == {}
    ensures result.state.Committed? ==> volume.abandoned == {}
    ensures volume.faults <= old(volume.faults) + 1 ==> !result.state.RecoveryRequired?
  {
    hide Disk.WellFormed, Temporaries, Temporary, TemporaryName, Sibling, TemporariesAccounted, Safe, Sound, Tidy, Grown;
    hide OnlyAt, Reserved, BackupHeld, KeyPresent, AllRemovable, Committable, KeyAllowed, LeavesOnly, BackupPath, Attempted, KeyStep;
    hide JustInstalled, CreatesKey, StagesOverConfig, Calm, ValidKeyPlan, Leads, Temporaries, OwnedNames, TempKeyPath, Disk.At;
    var directory := new TransactionDirectory(volume, m.config.dir);
    ghost var entered := volume.disk;
    ghost var keyTouched, published, installed;
    var state, changed, key;
    state, changed, key, keyOk, run, keyTouched, published, installed := Attempt(directory, m, payload, found);
    AttemptedFacts(run, keyTouched, published, directory, state, changed, installed, keyOk);
    MadeAsAsked(run, entered);
    cleanupOk := CleanUp(directory, run, keyTouched, published, state, changed, installed, keyOk);
    var keep := state.Committed? || state.Indeterminate?;
    SoundIgnoresChanged(run, state, changed, changed && state.Committed?, volume.disk);
    changed := changed && state.Committed?;
    if key != null {
      if !keep {
        CandidateGone(run, state, changed, volume.disk);
      }
      ghost var tidied := volume.disk;
      keyOk := SettleKey(volume, key, keep, run, state, changed);
      KeyLeavesOthers(run, tidied, volume.disk, volume.abandoned);
    }
    result := CommitResult(state, changed, key != null && keep,
                           if changed && m.base.Some? then Some(BackupPath(m.config)) else None);
  }
}
