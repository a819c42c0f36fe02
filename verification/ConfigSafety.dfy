/** What every state of a commit keeps, what each final state claims, and the proof step by step. */
module ConfigSafety {
  import opened ConfigPublish
  import opened ConfigRestore
  import opened ConfigStore
  import opened Options
  import opened StoreDisk
  import opened StoreFiles
  import opened StoreKey
  import opened StoreVolume

  /**
   One commit: what it was asked, the disk it found, that disk with the directories the
   commit made, whether it made a key, and its candidate file.
   */
  datatype Run = Run(m: Mutation, payload: Bytes, dirSync: bool, found: Disk, first: Disk, created: bool, candidate: Inode)

  /** Every name a commit may touch. */
  function Names(m: Mutation): set<Path> {
    Temporaries(m.config) + {BackupPath(m.config), m.config} + KeyNames(m)
  }

  /** The config path is no less certain than it was found, or the backup holds the base. */
  ghost predicate BaseSafe(run: Run, d: Disk) {
    d.WellFormed() && (Calm(run.first, d, run.m.config) || BackupHeld(run.m, run.dirSync, d))
  }

  /** Wherever the candidate is or may be the config, the key it names is in place. */
  ghost predicate KeyFirst(run: Run, d: Disk)
    requires d.WellFormed()
  {
    run.created && run.m.key.path.Some? ==>
      && (d.Live(run.m.config) == Some(run.candidate) ==> d.Read(run.m.key.path.value) == Some(run.payload))
      && (run.dirSync && Some(run.candidate) in d.At(run.m.config).maybe ==>
            d.Surely(run.m.key.path.value, Some(run.payload)) && (run.m.base.Some? ==> d.Settled(run.m.config.dir)))
  }

  ghost predicate ExistingKeyKept(run: Run, d: Disk) {
    run.m.key.path.Some? && run.first.Live(run.m.key.path.value).Some? ==> Calm(run.first, d, run.m.key.path.value)
  }

  /** Directories were only made, and only those made since can be pending in addition. */
  ghost predicate DirectoriesKept(found: Disk, d: Disk) {
    found.dirs <= d.dirs && d.pending <= found.pending + (d.dirs - found.dirs)
  }

  ghost predicate Safe(run: Run, d: Disk) {
    && BaseSafe(run, d) && KeyFirst(run, d) && ExistingKeyKept(run, d)
    && OnlyNames(run.first, d, Names(run.m)) && DirectoriesKept(run.found, d)
  }

  /** What is pending once the key is in place, and once the config directory was synced as well. */
  function PendingAfter(run: Run, configSynced: bool): set<Directory> {
    var keyed := if run.created && run.m.key.path.Some? then Unsettled(run.dirSync, run.first.pending, run.m.key.path.value.dir)
                 else run.first.pending;
    if configSynced then Unsettled(run.dirSync, keyed, run.m.config.dir) else keyed
  }

  /** The state in which the candidate became the config. */
  ghost predicate JustInstalled(run: Run, d: Disk) {
    && d.Live(run.m.config) == Some(run.candidate)
    && run.candidate < |d.files| && d.files[run.candidate] == File(run.m.candidate, true)
    && d.dirs == run.first.dirs && d.pending == PendingAfter(run, run.m.base.Some?)
  }

  /** The directories of the targets are there, and nothing but directories was made before `first`. */
  ghost predicate Placed(run: Run) {
    && run.found.WellFormed() && Grown(run.found, run.first) && run.m.config.dir in run.first.dirs
    && (run.created ==> run.m.key.path.Some? && run.m.key.path.value.dir in run.first.dirs)
  }

  /** While the config has not been touched, a state is safe. */
  lemma UntouchedIsSafe(run: Run, d: Disk, touched: set<Path>)
    requires run.first.WellFormed() && |run.first.files| <= run.candidate && DirectoriesKept(run.found, d)
    requires OnlyNames(run.first, d, touched) && touched <= Names(run.m) && run.m.config !in touched
    requires run.m.key.path.Some? && run.first.Live(run.m.key.path.value).Some? ==> run.m.key.path.value !in touched
    ensures Safe(run, d)
    ensures Some(run.candidate) !in d.At(run.m.config).maybe
  {
  }

  lemma GrownIsUntouched(found: Disk, first: Disk, d: Disk)
    requires Grown(found, first) && Grown(found, d)
    ensures OnlyNames(first, d, {}) && DirectoriesKept(found, d)
  {
  }

  lemma SteadyIsKept(found: Disk, first: Disk, d: Disk)
    requires Grown(found, first) && d.SteadySince(first)
    ensures DirectoriesKept(found, d)
  {
  }

  /** Once the backup holds the base and the key is in place, moving the config is safe. */
  lemma InstalledIsSafe(run: Run, keyTouched: set<Path>, published: Disk, origin: Disk, d: Disk)
    requires KeyStep(run, keyTouched, published) && origin.WellFormed()
    requires OnlyAt(published, origin, Temporaries(run.m.config) + {BackupPath(run.m.config)})
    requires OnlyAt(origin, d, Temporaries(run.m.config) + {run.m.config})
    requires BackupHeld(run.m, run.dirSync, origin)
    ensures Safe(run, d) && BackupHeld(run.m, run.dirSync, d)
  {
    TemporariesDiffer(run.m);
    OnlyAtChains(run.first, published, origin, keyTouched, Temporaries(run.m.config) + {BackupPath(run.m.config)});
    OnlyAtChains(run.first, origin, d, keyTouched + (Temporaries(run.m.config) + {BackupPath(run.m.config)}),
                 Temporaries(run.m.config) + {run.m.config});
    assert OnlyAt(run.first, d, Names(run.m));
    SteadyIsKept(run.found, run.first, d);
    CalmKeepsContent(origin, d, BackupPath(run.m.config), run.m.base);
    if run.m.key.path.Some? {
      var key := run.m.key.path.value;
      CalmKeepsContent(published, origin, key, Some(run.payload));
      CalmKeepsContent(origin, d, key, Some(run.payload));
      assert Calm(published, origin, key) && Calm(origin, d, key);
    }
  }

  lemma TempKeyIsNoBackup(target: Path, config: Path)
    ensures TempKeyPath(target) != BackupPath(config)
  {
    var key, backup := TempKeyPath(target).name, BackupPath(config).name;
    assert key[|key| - 1] == 'p' && backup[|backup| - 1] == 'k';
  }

  /** States between the publication of the key and that of the candidate are safe. */
  lemma StagingIsSafe(run: Run, keyTouched: set<Path>, published: Disk, d: Disk)
    requires KeyStep(run, keyTouched, published)
    requires OnlyAt(published, d, Temporaries(run.m.config) + {BackupPath(run.m.config)})
    ensures Safe(run, d) && Some(run.candidate) !in d.At(run.m.config).maybe && Calm(run.first, d, run.m.config)
  {
    TemporariesDiffer(run.m);
    OnlyAtChains(run.first, published, d, keyTouched, Temporaries(run.m.config) + {BackupPath(run.m.config)});
    SteadyIsKept(run.found, run.first, d);
    UntouchedIsSafe(run, d, keyTouched + (Temporaries(run.m.config) + {BackupPath(run.m.config)}));
  }

  lemma OnlyNamesChain(a: Disk, b: Disk, c: Disk, first: set<Path>, second: set<Path>)
    requires OnlyNames(a, b, first) && OnlyNames(b, c, second)
    ensures OnlyNames(a, c, first + second)
  {
  }

  /** Taking the key back is safe once the candidate is certainly not the config. */
  lemma KeyRollbackIsSafe(run: Run, settled: Disk, d: Disk)
    requires Safe(run, settled) && run.m.key.path.Some?
    requires run.first.Live(run.m.key.path.value).None? && run.first.WellFormed() && settled.WellFormed()
    requires OnlyAt(settled, d, {run.m.key.path.value}) && run.m.key.path.value !in Reserved(run.m.config)
    requires settled.Live(run.m.config) != Some(run.candidate)
    requires run.dirSync ==> Some(run.candidate) !in settled.At(run.m.config).maybe
    ensures Safe(run, d)
  {
    OnlyNamesChain(run.first, settled, d, Names(run.m), {run.m.key.path.value});
    assert Names(run.m) + {run.m.key.path.value} == Names(run.m);
    assert Calm(settled, d, run.m.config) && Calm(settled, d, BackupPath(run.m.config));
    CalmKeepsContent(settled, d, BackupPath(run.m.config), run.m.base);
  }

  /** What each final state claims about the disk it leaves. */
  ghost predicate Sound(run: Run, state: CommitState, changed: bool, d: Disk)
    requires run.first.WellFormed() && d.WellFormed()
  {
    match state
    case NotCommitted => Calm(run.first, d, run.m.config) && BackupAsFound(run.first, d, run.m, run.dirSync)
    case RecoveryRequired =>
      run.m.base.Some? && Calm(run.first, d, run.m.config) && run.first.Read(run.m.config) == run.m.base
    case RolledBack =>
      && d.Read(run.m.config) == run.m.base && d.Live(run.m.config) != Some(run.candidate)
      && (run.dirSync ==> d.Surely(run.m.config, run.m.base) && Some(run.candidate) !in d.At(run.m.config).maybe)
      && BackupHeld(run.m, run.dirSync, d)
    case Committed =>
      && d.dirs == run.first.dirs && d.pending == PendingAfter(run, changed)
      && (changed ==> Installed(d, run.m, run.dirSync, run.candidate) && BackupHeld(run.m, run.dirSync, d))
      && (!changed ==>
            && Calm(run.first, d, run.m.config) && Calm(run.first, d, BackupPath(run.m.config))
            && run.m.base == Some(run.m.candidate) && run.first.Read(run.m.config) == run.m.base)
    case Indeterminate => BackupHeld(run.m, run.dirSync, d)
  }

  /** The names the key step touched, and the disk it left. */
  ghost predicate KeyWork(run: Run, keyTouched: set<Path>, published: Disk) {
    && run.found.WellFormed() && Grown(run.found, run.first) && |run.first.files| <= |published.files| == run.candidate
    && OnlyAt(run.first, published, keyTouched) && keyTouched <= KeyNames(run.m)
    && (run.m.key.path.Some? ==> run.m.key.path.value !in Reserved(run.m.config))
    && (run.m.key.path.Some? && run.first.Live(run.m.key.path.value).Some? ==> run.m.key.path.value !in keyTouched)
    && (run.created ==> run.m.key.path.Some? && run.first.Live(run.m.key.path.value).None?
                        && run.m.key.path.value.dir in run.first.dirs
                        && KeyPresent(run.dirSync, published, run.m.key.path.value, run.payload))
  }

  ghost predicate KeyStep(run: Run, keyTouched: set<Path>, published: Disk) {
    KeyWork(run, keyTouched, published) && run.m.config !in keyTouched
  }

  /** The plan makes the temporary name of the new key the config path, at which there is nothing. */
  ghost predicate StagesOverConfig(d: Disk, m: Mutation, payload: Bytes) {
    m.base.None? && CreatesKey(d, m, payload) && TempKeyPath(m.key.path.value) == m.config
  }

  /** The directories a commit makes on demand. */
  function MadeFor(m: Mutation): set<Directory> {
    m.privateDirs + if m.base.None? then {m.config.dir} else {}
  }

  /** Names other than the three targets are unchanged, owned by a staged file, or abandoned. */
  ghost predicate Tidy(run: Run, d: Disk, files: seq<StoreFile>, abandoned: set<Path>) {
    && abandoned <= Temporaries(run.m.config) + KeyNames(run.m)
    && (run.m.key.path.Some? ==> run.m.key.path.value !in abandoned)
    && (run.m.key.path.Some? && TempKeyPath(run.m.key.path.value) != run.m.config ==>
          Accounted(run.first, d, files, abandoned, TempKeyPath(run.m.key.path.value)))
    && TemporariesAccounted(run.first, d, run.m, files, abandoned)
  }

  /** Making directories changes no answer about names. */
  lemma GrownAnswersSame(found: Disk, d: Disk, m: Mutation, payload: Bytes)
    requires found.WellFormed() && Grown(found, d)
    ensures d.Read(m.config) == found.Read(m.config) && KeySuits(d, m, payload) == KeySuits(found, m, payload)
    ensures CreatesKey(d, m, payload) == CreatesKey(found, m, payload)
    ensures KeyAllowed(d, m, payload) == KeyAllowed(found, m, payload)
    ensures d.Live(m.config) == found.Live(m.config)
    ensures m.key.path.Some? ==>
              && d.Live(m.key.path.value) == found.Live(m.key.path.value)
              && d.Live(TempKeyPath(m.key.path.value)) == found.Live(TempKeyPath(m.key.path.value))
    ensures StagesOverConfig(d, m, payload) == StagesOverConfig(found, m, payload)
    ensures TemporariesFree(d, m) == TemporariesFree(found, m)
  {
  }

  /** The directories asked for lead to all the directories on the way to them. */
  lemma WantedAreThere(d: Disk, dir: Directory, wanted: set<Directory>)
    requires d.WellFormed() && wanted <= d.dirs && Leads(dir, wanted)
    ensures dir in d.dirs
  {
    var f :| f in wanted && dir <= f;
    AboveExists(d, dir, f);
  }

  lemma KeyDirectoryArrives(d: Disk, wanted: set<Directory>, m: Mutation, payload: Bytes)
    requires d.WellFormed()
    ensures wanted <= d.dirs && (CreatesKey(d, m, payload) ==> Leads(m.key.path.value.dir, wanted)) ==> KeyHasDirectory(d, m, payload)
  {
    if wanted <= d.dirs && CreatesKey(d, m, payload) && Leads(m.key.path.value.dir, wanted) {
      WantedAreThere(d, m.key.path.value.dir, wanted);
    }
  }

  lemma KeyEndsSettled(run: Run, d: Disk)
    requires run.created ==> run.m.key.path.Some? && SyncedSince(run.first, d, run.dirSync, run.m.key.path.value.dir)
    requires !run.created ==> d == run.first
    ensures KeySettled(run, d)
  {
  }

  lemma KeyLeavesTidy(run: Run, d: Disk, abandoned: set<Path>)
    requires abandoned <= KeyNames(run.m)
    requires run.m.key.path.Some? ==> run.m.key.path.value !in abandoned && run.m.key.path.value !in Reserved(run.m.config)
    requires forall p | p !in KeyNames(run.m) :: d.Live(p) == run.first.Live(p)
    requires run.m.key.path.Some? ==>
               var temp := TempKeyPath(run.m.key.path.value);
               if temp in abandoned then d.Live(temp).Some? && run.first.Live(temp).None?
               else d.Live(temp) == run.first.Live(temp)
    ensures Tidy(run, d, [], abandoned)
  {
  }

  lemma PastIsSafe(run: Run, keyTouched: set<Path>, published: Disk, past: set<Disk>)
    requires KeyStep(run, keyTouched, published)
    requires forall d <- past ::
               || Grown(run.found, d) || OnlyAt(run.first, d, keyTouched)
               || OnlyAt(published, d, Temporaries(run.m.config) + {BackupPath(run.m.config)})
    ensures forall d <- past :: Safe(run, d) && d.Live(run.m.config) != Some(run.candidate)
  {
    forall d <- past
      ensures Safe(run, d) && d.Live(run.m.config) != Some(run.candidate)
    {
      if Grown(run.found, d) {
        GrownIsUntouched(run.found, run.first, d);
        UntouchedIsSafe(run, d, {});
      } else if OnlyAt(run.first, d, keyTouched) {
        SteadyIsKept(run.found, run.first, d);
        UntouchedIsSafe(run, d, keyTouched);
      } else {
        StagingIsSafe(run, keyTouched, published, d);
      }
      assert d.Live(run.m.config) in d.At(run.m.config).maybe;
    }
  }

  /** Staging after a clean key step keeps every name accounted for. */
  lemma StagingStaysTidy(run: Run, published: Disk, d: Disk, files: seq<StoreFile>, abandoned: set<Path>)
    requires Tidy(run, published, [], {}) && abandoned <= Temporaries(run.m.config)
    requires run.m.key.path.Some? ==> run.m.key.path.value !in Reserved(run.m.config)
    requires TemporariesAccounted(published, d, run.m, files, abandoned)
    requires run.m.key.path.Some? && TempKeyPath(run.m.key.path.value) !in Temporaries(run.m.config) + {run.m.config} ==>
               Calm(published, d, TempKeyPath(run.m.key.path.value))
    requires OwnedNames(files) <= Temporaries(run.m.config) + {BackupPath(run.m.config), run.m.config}
    ensures Tidy(run, d, files, abandoned)
  {
    TemporariesDiffer(run.m);
    if run.m.key.path.Some? {
      var temp := TempKeyPath(run.m.key.path.value);
      TempKeyIsNoBackup(run.m.key.path.value, run.m.config);
      assert temp !in Temporaries(run.m.config) + {run.m.config} ==> temp !in OwnedNames(files);
    }
    forall k | 0 <= k < 4
      ensures Accounted(run.first, d, files, abandoned, Temporary(run.m, k))
    {
      assert Accounted(run.first, published, [], {}, Temporary(run.m, k));
      assert Accounted(published, d, files, abandoned, Temporary(run.m, k));
    }
    if run.m.key.path.Some? && TempKeyPath(run.m.key.path.value) in Temporaries(run.m.config) {
      var p := TempKeyPath(run.m.key.path.value);
      assert p == Temporary(run.m, 0) || p == Temporary(run.m, 1) || p == Temporary(run.m, 2) || p == Temporary(run.m, 3);
      var k :| 0 <= k < 4 && Temporary(run.m, k) == TempKeyPath(run.m.key.path.value);
      assert Accounted(run.first, d, files, abandoned, Temporary(run.m, k));
    }
  }

  lemma KeyStepKeepsConfig(run: Run, keyTouched: set<Path>, published: Disk)
    requires KeyStep(run, keyTouched, published)
    ensures Calm(run.first, published, run.m.config) && Calm(run.first, published, BackupPath(run.m.config))
  {
    if run.m.key.path.Some? {
      TempKeyIsNoBackup(run.m.key.path.value, run.m.config);
    }
  }

  /** The key step ended well: of the directories, only those beside a new key were synced. */
  ghost predicate KeySettled(run: Run, published: Disk) {
    published.dirs == run.first.dirs && published.pending == PendingAfter(run, false)
  }

  lemma PublishedIsInstalled(run: Run, published: Disk, recent: set<Disk>)
    requires KeySettled(run, published)
    requires exists d <- recent :: JustPublished(published, d, run.m, run.dirSync, run.candidate)
    ensures exists d <- recent :: JustInstalled(run, d)
  {
    var d :| d in recent && JustPublished(published, d, run.m, run.dirSync, run.candidate);
    assert JustInstalled(run, d);
  }

  lemma TransactedIsSound(run: Run, keyTouched: set<Path>, published: Disk, origin: Disk, d: Disk, touched: set<Path>,
                          state: CommitState, installed: bool)
    requires KeyStep(run, keyTouched, published) && KeySettled(run, published)
    requires OnlyAt(published, origin, Temporaries(run.m.config) + {BackupPath(run.m.config)})
    requires OnlyAt(origin, d, touched) && run.first.Read(run.m.config) == run.m.base
    requires touched <= Temporaries(run.m.config) + {if installed then run.m.config else BackupPath(run.m.config)}
    requires !installed ==>
               || (state.NotCommitted? && BackupAsFound(published, d, run.m, run.dirSync))
               || (state.RecoveryRequired? && run.m.base.Some?)
    requires installed ==>
               && BackupHeld(run.m, run.dirSync, origin)
               && (state.Committed? || state.RolledBack? || state.Indeterminate?)
               && (state.Committed? ==>
                     Installed(d, run.m, run.dirSync, run.candidate) && SyncedSince(published, d, run.dirSync, run.m.config.dir))
               && (state.RolledBack? ==>
                     && d.Read(run.m.config) == run.m.base
                     && d.Live(run.m.config) != Some(run.candidate)
                     && (run.dirSync ==> Some(run.candidate) !in d.At(run.m.config).maybe && d.Surely(run.m.config, run.m.base)))
    ensures Sound(run, state, true, d)
    ensures run.m.key.path.Some? ==> Calm(published, d, run.m.key.path.value)
    ensures run.m.key.path.Some? && TempKeyPath(run.m.key.path.value) !in Temporaries(run.m.config) + {run.m.config} ==>
              Calm(published, d, TempKeyPath(run.m.key.path.value))
  {
    TemporariesDiffer(run.m);
    var config, backup := run.m.config, BackupPath(run.m.config);
    if run.m.key.path.Some? {
      TempKeyIsNoBackup(run.m.key.path.value, config);
      var temp := TempKeyPath(run.m.key.path.value);
      assert temp !in Temporaries(config) + {config} ==> Calm(published, origin, temp) && Calm(origin, d, temp);
      assert Calm(published, origin, run.m.key.path.value) && Calm(origin, d, run.m.key.path.value);
    }
    KeyStepKeepsConfig(run, keyTouched, published);
    assert Calm(published, origin, config);
    CalmKeepsContent(run.first, published, backup, run.first.Read(backup));
    if installed {
      CalmKeepsContent(origin, d, backup, run.m.base);
    } else {
      assert Calm(origin, d, config);
    }
  }

  /** The disk is as the mutation expects it, the key work can be done, and no temporary file is in the way. */
  ghost predicate Committable(d: Disk, m: Mutation, payload: Bytes)
    requires d.WellFormed()
  {
    && d.Read(m.config) == m.base && KeySuits(d, m, payload) && (m.base != Some(m.candidate) ==> TemporariesFree(d, m))
    && (m.base.Some? ==> m.config.dir in d.dirs)
    && (CreatesKey(d, m, payload) ==> Leads(m.key.path.value.dir, d.dirs + MadeFor(m)))
  }

  lemma KeyLeavesTemporaries(run: Run, published: Disk)
    requires Tidy(run, published, [], {}) && Calm(run.first, published, BackupPath(run.m.config))
    ensures TemporariesFree(run.first, run.m) <==> TemporariesFree(published, run.m)
  {
    forall k | 0 <= k < 4
      ensures published.Live(Temporary(run.m, k)) == run.first.Live(Temporary(run.m, k))
    {
      assert Accounted(run.first, published, [], {}, Temporary(run.m, k));
    }
  }

  lemma OnlyAtSelf(d: Disk, places: set<Path>)
    requires d.WellFormed()
    ensures OnlyAt(d, d, places)
  {
  }

  /** Before anything but the key has moved, giving up is NotCommitted, and there may be nothing to do. */
  lemma UntouchedIsSound(run: Run, keyTouched: set<Path>, published: Disk)
    requires KeyStep(run, keyTouched, published)
    ensures published.WellFormed() && published.Read(run.m.config) == run.first.Read(run.m.config)
    ensures Sound(run, NotCommitted, false, published)
    ensures run.m.base == Some(run.m.candidate) && run.first.Read(run.m.config) == run.m.base && KeySettled(run, published) ==>
              Sound(run, Committed, false, published)
  {
    KeyStepKeepsConfig(run, keyTouched, published);
    CalmKeepsContent(run.first, published, run.m.config, run.m.base);
  }

  /** What a commit may count on after the directories above the config are there. */
  lemma MoreIsFound(found: Disk, d: Disk, m: Mutation, payload: Bytes)
    requires found.WellFormed() && Grown(found, d)
    ensures Committable(found, m, payload) && MadeFor(m) <= d.dirs + m.privateDirs && CreatesKey(found, m, payload) ==>
              Leads(m.key.path.value.dir, d.dirs + m.privateDirs)
  {
  }

  /** What a commit that went through has found. */
  lemma CommittableWas(run: Run, entered: Disk)
    requires run.found.WellFormed() && Grown(run.found, run.first) && run.first.Read(run.m.config) == run.m.base
    requires KeySuits(run.found, run.m, run.payload) && KeyHasDirectory(run.first, run.m, run.payload)
    requires run.m.base != Some(run.m.candidate) ==> TemporariesFree(run.first, run.m)
    requires run.m.config.dir in entered.dirs
    requires forall e <- entered.dirs - run.found.dirs :: run.m.base.None? && e <= run.m.config.dir
    requires forall e <- run.first.dirs - entered.dirs :: Leads(e, run.m.privateDirs)
    ensures Committable(run.found, run.m, run.payload)
  {
    GrownAnswersSame(run.found, run.first, run.m, run.payload);
    MadeAsAsked(run, entered);
    assert run.m.config.dir in run.found.dirs || run.m.config.dir in entered.dirs - run.found.dirs;
    if CreatesKey(run.found, run.m, run.payload) {
      var dir := run.m.key.path.value.dir;
      assert dir in run.first.dirs;
      if dir in run.found.dirs {
        assert dir in run.found.dirs + MadeFor(run.m);
      } else {
        assert dir in run.first.dirs - run.found.dirs;
        var f :| f in MadeFor(run.m) && dir <= f;
        assert f in run.found.dirs + MadeFor(run.m);
      }
    }
  }

  lemma FreeAsFound(run: Run)
    requires run.found.WellFormed() && Grown(run.found, run.first)
    ensures TemporariesFree(run.first, run.m) == TemporariesFree(run.found, run.m)
  {
  }

  /** Whatever the last stretch of a commit did, its states are safe. */
  lemma RecentIsSafe(run: Run, keyTouched: set<Path>, published: Disk, origin: Disk, recent: set<Disk>,
                     touched: set<Path>, installed: bool)
    requires KeyStep(run, keyTouched, published) && published.WellFormed() && origin.WellFormed()
    requires OnlyAt(published, origin, Temporaries(run.m.config) + {BackupPath(run.m.config)})
    requires forall d <- recent :: d.WellFormed() && OnlyAt(origin, d, touched)
    requires touched <= Temporaries(run.m.config) + {if installed then run.m.config else BackupPath(run.m.config)}
    requires installed ==> BackupHeld(run.m, run.dirSync, origin)
    ensures forall d <- recent :: Safe(run, d)
    ensures !installed ==> forall d <- recent :: d.Live(run.m.config) != Some(run.candidate)
    ensures forall d <- recent :: d.WellFormed() && (run.created ==> KeyPresent(run.dirSync, d, run.m.key.path.value, run.payload))
  {
    var staging := Temporaries(run.m.config) + {BackupPath(run.m.config)};
    StagingIsSafe(run, keyTouched, published, published);
    forall d <- recent
      ensures Safe(run, d) && (!installed ==> d.Live(run.m.config) != Some(run.candidate))
      ensures run.created ==> KeyPresent(run.dirSync, d, run.m.key.path.value, run.payload)
    {
      if installed {
        OnlyAtWider(origin, d, touched, Temporaries(run.m.config) + {run.m.config});
        InstalledIsSafe(run, keyTouched, published, origin, d);
      } else {
        OnlyAtChains(published, origin, d, staging, touched);
        assert OnlyAt(published, d, staging);
        StagingIsSafe(run, keyTouched, published, d);
        assert d.Live(run.m.config) in d.At(run.m.config).maybe;
      }
      if run.created {
        KeyOutlasts(run, published, origin, d, touched);
      }
    }
  }

  lemma OnlyAtWider(d: Disk, later: Disk, touched: set<Path>, more: set<Path>)
    requires OnlyAt(d, later, touched) && touched <= more
    ensures OnlyAt(d, later, more)
  {
  }

  lemma KeyOutlasts(run: Run, published: Disk, origin: Disk, d: Disk, touched: set<Path>)
    requires published.WellFormed() && origin.WellFormed() && run.m.key.path.Some?
    requires run.m.key.path.value !in Reserved(run.m.config)
    requires OnlyAt(published, origin, Temporaries(run.m.config) + {BackupPath(run.m.config)})
    requires OnlyAt(origin, d, touched) && touched <= Reserved(run.m.config)
    requires KeyPresent(run.dirSync, published, run.m.key.path.value, run.payload)
    ensures KeyPresent(run.dirSync, d, run.m.key.path.value, run.payload)
  {
    var key := run.m.key.path.value;
    assert Calm(published, origin, key) && Calm(origin, d, key);
    CalmKeepsContent(published, origin, key, Some(run.payload));
    CalmKeepsContent(origin, d, key, Some(run.payload));
  }

  /** Cleanup unlinks only names it owns, so it spoils no claim of the final state. */
  lemma CleanupKeepsSound(run: Run, state: CommitState, changed: bool, before: Disk, d: Disk, owned: set<Path>)
    requires run.first.WellFormed() && before.WellFormed() && d.WellFormed() && d.files == before.files
    requires Sound(run, state, changed, before) && d.dirs == before.dirs && d.pending == before.pending
    requires forall p | p !in owned :: d.At(p) == before.At(p)
    requires owned <= Temporaries(run.m.config)
                      + (if state.RecoveryRequired? then {BackupPath(run.m.config)} else {})
                      + (if state.Indeterminate? then {run.m.config} else {})
    ensures Sound(run, state, changed, d)
  {
    TemporariesDiffer(run.m);
    SameEntryReadsSameIf(before, d, run.m.config, run.m.config !in owned);
    SameEntryReadsSameIf(before, d, BackupPath(run.m.config), BackupPath(run.m.config) !in owned);
  }

  lemma SameEntryReadsSameIf(d: Disk, later: Disk, p: Path, same: bool)
    requires d.WellFormed() && later.WellFormed() && later.files == d.files && (same ==> later.At(p) == d.At(p))
    ensures same ==> later.Read(p) == d.Read(p)
  {
  }

  /** A successful cleanup leaves exactly the abandoned names different from the start. */
  lemma CleanupTidies(run: Run, before: Disk, d: Disk, files: seq<StoreFile>, abandoned: set<Path>)
    requires Tidy(run, before, files, abandoned) && OnlyNames(run.first, d, Names(run.m))
    requires forall k :: 0 <= k < |files| && files[k].Owning() ==> d.Live(files[k].path).None?
    requires forall p ::
               || d.At(p) == before.At(p)
               || (d.Live(p).None? && before.Live(p).Some? && Owned(files, p, before.Live(p).value))
    ensures LeavesOnly(run, d, abandoned)
  {
    forall p | p !in {run.m.config, BackupPath(run.m.config)} && Some(p) != run.m.key.path
      ensures d.Live(p) != run.first.Live(p) <==> p in abandoned
    {
      if p in Temporaries(run.m.config) {
        assert p == Temporary(run.m, 0) || p == Temporary(run.m, 1) || p == Temporary(run.m, 2) || p == Temporary(run.m, 3);
        assert Accounted(run.first, before, files, abandoned, p);
      } else if p in KeyNames(run.m) {
        assert Accounted(run.first, before, files, abandoned, p);
      } else {
        assert Calm(run.first, d, p);
      }
    }
  }

  /** Besides the config, its backup and the key, exactly the abandoned names changed. */
  ghost predicate LeavesOnly(run: Run, d: Disk, abandoned: set<Path>) {
    forall p | p !in {run.m.config, BackupPath(run.m.config)} && Some(p) != run.m.key.path ::
      d.Live(p) != run.first.Live(p) <==> p in abandoned
  }

  /** Undoing the key disturbs neither the config nor the backup. */
  lemma KeyRollbackKeepsSound(run: Run, state: CommitState, changed: bool, settled: Disk, d: Disk, key: Path)
    requires run.first.WellFormed() && settled.WellFormed() && d.WellFormed() && d.files == settled.files
    requires Sound(run, state, changed, settled) && key !in Reserved(run.m.config)
    requires forall p | p != key :: Calm(settled, d, p)
    requires d.SteadySince(settled)
    requires state.NotCommitted? || state.RolledBack? || state.RecoveryRequired?
    ensures Sound(run, state, changed, d)
  {
    assert Calm(settled, d, run.m.config) && Calm(settled, d, BackupPath(run.m.config));
    CalmKeepsContent(settled, d, run.m.config, run.m.base);
    CalmKeepsContent(settled, d, BackupPath(run.m.config), run.m.base);
    CalmKeepsContent(settled, d, BackupPath(run.m.config), run.first.Read(BackupPath(run.m.config)));
  }

  lemma SafeIsFramed(run: Run, d: Disk)
    requires Safe(run, d)
    ensures OnlyNames(run.first, d, Names(run.m))
  {
  }

  lemma KeyIsNeverOwned(run: Run, state: CommitState, files: seq<StoreFile>)
    requires run.m.key.path.Some? && run.m.key.path.value !in Reserved(run.m.config)
    requires OwnedNames(files) <= Temporaries(run.m.config)
                                  + (if state.RecoveryRequired? then {BackupPath(run.m.config)} else {})
                                  + (if state.Indeterminate? then {run.m.config} else {})
    ensures run.m.key.path.value !in OwnedNames(files)
  {
  }

  lemma OnlyTargetMoved(settled: Disk, d: Disk, touched: set<Path>, target: Path)
    requires OnlyAt(settled, d, touched) && touched <= {target}
    ensures OnlyAt(settled, d, {target})
  {
  }

  lemma ConfigNotTarget(settled: Disk, d: Disk, m: Mutation, target: Path)
    requires OnlyAt(settled, d, {target}) && target !in Reserved(m.config)
    ensures d.Live(m.config) == settled.Live(m.config)
  {
    assert Calm(settled, d, m.config);
  }

  lemma NothingHappened(run: Run)
    requires run.found.WellFormed() && Grown(run.found, run.first) && run.candidate == |run.first.files| && !run.created
    ensures forall d | Grown(run.found, d) :: Safe(run, d) && d.Live(run.m.config) != Some(run.candidate)
    ensures Sound(run, NotCommitted, false, run.first) && LeavesOnly(run, run.first, {})
  {
    forall d | Grown(run.found, d)
      ensures Safe(run, d) && d.Live(run.m.config) != Some(run.candidate)
    {
      GrownIsUntouched(run.found, run.first, d);
      UntouchedIsSafe(run, d, {});
      assert d.Live(run.m.config) in d.At(run.m.config).maybe;
    }
  }

  lemma SoundIgnoresChanged(run: Run, state: CommitState, was: bool, now: bool, d: Disk)
    requires run.first.WellFormed() && d.WellFormed() && Sound(run, state, was, d) && (state.Committed? ==> was == now)
    ensures Sound(run, state, now, d)
  {
  }

  /** In the states that take the key back, the candidate is certainly not the config. */
  lemma CandidateGone(run: Run, state: CommitState, changed: bool, d: Disk)
    requires run.first.WellFormed() && d.WellFormed() && Sound(run, state, changed, d)
    requires |run.first.files| <= run.candidate
    requires !state.Committed? && !state.Indeterminate?
    ensures d.Live(run.m.config) != Some(run.candidate)
    ensures run.dirSync ==> Some(run.candidate) !in d.At(run.m.config).maybe
  {
  }

  const RESERVED_SUFFIXES := {"", ".bak", ".lock", ".tmp", ".bak.tmp", ".rollback.tmp", ".bak.restore.tmp"}

  /** The key plan says of the key file the candidate names, and of no other, whether to keep it or to make it. */
  ghost predicate PlanFits(m: Mutation) {
    match m.decoded
    case None => false
    case Some(None) => m.key == KeyPlan(IntentNone, None, [], false)
    case Some(Some(p)) =>
      && m.key.path == Some(p)
      && (m.key.intent == IntentEnsure || (m.key.intent == IntentInspect && !m.key.allowExisting))
      && (forall suffix <- RESERVED_SUFFIXES :: p != Path(m.config.dir, m.config.name + suffix))
      && (forall i, j | 0 <= i < |m.key.distinctFrom| && 0 <= j < |m.key.distinctFrom| ::
            m.key.distinctFrom[i] != p && (m.key.distinctFrom[i] == m.key.distinctFrom[j] ==> i == j))
  }

  /** A candidate of 1 byte to 1 MiB that decodes, with a plan that fits it. */
  ghost predicate WellAsked(m: Mutation) {
    1 <= |m.candidate| <= 0x100000 && PlanFits(m)
  }

  lemma AcceptableIs(m: Mutation)
    ensures Acceptable(m) <==> WellAsked(m)
  {
    if m.decoded.Some? {
      PlanFitsIs(m);
    }
  }

  lemma PlanFitsIs(m: Mutation)
    requires m.decoded.Some?
    ensures ValidKeyPlan(m) <==> PlanFits(m)
  {
    if m.decoded.value.Some? {
      var p := m.decoded.value.value;
      ReservedAre(m.config, p);
      hide Reserved;
      assert p in m.key.distinctFrom <==> exists i :: 0 <= i < |m.key.distinctFrom| && m.key.distinctFrom[i] == p;
    }
  }

  lemma ReservedAre(config: Path, p: Path)
    ensures p in Reserved(config) <==> exists suffix <- RESERVED_SUFFIXES :: p == Path(config.dir, config.name + suffix)
  {
    assert config.name + "" == config.name;
    assert "" in RESERVED_SUFFIXES && ".bak" in RESERVED_SUFFIXES && ".lock" in RESERVED_SUFFIXES && ".tmp" in RESERVED_SUFFIXES;
    assert ".bak.tmp" in RESERVED_SUFFIXES && ".rollback.tmp" in RESERVED_SUFFIXES && ".bak.restore.tmp" in RESERVED_SUFFIXES;
  }

  /** The mutation passes the checks made before the lock is taken. */
  predicate Acceptable(m: Mutation) {
    m.candidate != [] && |m.candidate| <= MAX_CONFIG_BYTES && m.decoded.Some? && ValidKeyPlan(m)
  }

  lemma GrownFromItself(d: Disk)
    requires d.WellFormed()
    ensures Grown(d, d)
  {
  }

  lemma KeyLeavesOthers(run: Run, d: Disk, later: Disk, abandoned: set<Path>)
    requires forall p | Some(p) != run.m.key.path :: later.Live(p) == d.Live(p)
    ensures LeavesOnly(run, d, abandoned) ==> LeavesOnly(run, later, abandoned)
  {
  }

  lemma SpoiledIsKept(run: Run, keyTouched: set<Path>, d: Disk)
    requires run.found.WellFormed() && Grown(run.found, run.first) && keyTouched <= {run.m.config}
    requires Grown(run.found, d) || OnlyAt(run.first, d, keyTouched) || OnlyAt(run.first, d, {run.m.config})
    ensures OnlyNames(run.found, d, {run.m.config}) && DirectoriesKept(run.found, d)
  {
  }

  lemma RefusedBefore(run: Run, history: set<Disk>)
    requires run.found.WellFormed() && Grown(run.found, run.first) && forall d <- history :: Grown(run.found, d)
    ensures forall d <- history :: OnlyNames(run.found, d, {run.m.config}) && DirectoriesKept(run.found, d)
    ensures run.first.Live(run.m.config) == run.found.Live(run.m.config)
  {
    forall d <- history
      ensures OnlyNames(run.found, d, {run.m.config}) && DirectoriesKept(run.found, d)
    {
      SpoiledIsKept(run, {}, d);
    }
  }

  lemma MadeAsAsked(run: Run, entered: Disk)
    requires forall e <- entered.dirs - run.found.dirs :: run.m.base.None? && e <= run.m.config.dir
    requires forall e <- run.first.dirs - entered.dirs :: Leads(e, run.m.privateDirs)
    ensures forall e <- run.first.dirs - run.found.dirs :: Leads(e, MadeFor(run.m))
  {
    forall e <- run.first.dirs - run.found.dirs
      ensures Leads(e, MadeFor(run.m))
    {
      if e in entered.dirs {
        assert e in entered.dirs - run.found.dirs;
        assert run.m.config.dir in MadeFor(run.m);
      } else {
        assert e in run.first.dirs - entered.dirs;
        var f :| f in run.m.privateDirs && e <= f;
        assert f in MadeFor(run.m);
      }
    }
  }
}
