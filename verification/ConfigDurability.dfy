/** What a crash may leave of a commit: the base, the config and its key, with the exact conditions. */
module ConfigDurability {
  import opened ConfigPublish
  import opened ConfigRestore
  import opened ConfigSafety
  import opened ConfigStore
  import opened Options
  import opened StoreDisk
  import opened StoreFiles
  import opened StoreKey
  import opened StoreVolume

  /** A directory that no crash could drop before the commit is dropped by none in it. */
  lemma FirmStays(found: Disk, d: Disk, dir: Directory)
    requires found.WellFormed() && DirectoriesKept(found, d) && dir in found.dirs && found.Firm(dir)
    ensures d.Firm(dir)
  {
    forall e <- d.pending
      ensures !(e <= dir)
    {
      if e <= dir {
        AboveExists(found, e, dir);
      }
    }
  }

  /**
   Crash safety: if the base was really there at the start, then in every safe state it is at
   the config path or at the backup path, for the running system and after any crash.
   */
  lemma SafeKeepsBase(run: Run, d: Disk)
    requires Safe(run, d) && run.found.WellFormed() && Grown(run.found, run.first) && run.m.base.Some?
    requires run.found.Read(run.m.config) == run.m.base && run.m.config.dir in run.found.dirs
    ensures d.Read(run.m.config) == run.m.base || d.Read(BackupPath(run.m.config)) == run.m.base
    ensures run.dirSync && Lasts(run.found, run.m.config, run.m.base) ==>
              forall image | Survives(d, image) ::
                Lookup(image, run.m.config) == run.m.base || Lookup(image, BackupPath(run.m.config)) == run.m.base
  {
    if Calm(run.first, d, run.m.config) {
      CalmKeepsContent(run.first, d, run.m.config, run.m.base);
    }
    if run.dirSync && Lasts(run.found, run.m.config, run.m.base) {
      SurelyMeansEveryCrash(run.found, run.m.config, run.m.base);
      assert run.first.Surely(run.m.config, run.m.base);
      FirmStays(run.found, d, run.m.config.dir);
      SurelyMeansEveryCrash(d, run.m.config, run.m.base);
      SurelyMeansEveryCrash(d, BackupPath(run.m.config), run.m.base);
    }
  }

  /**
   Every directory on the way to `dir` leads to `beside` too, was durable when the commit
   began, or is an entry of a directory in `synced`.
   */
  ghost predicate Anchored(found: Disk, dir: Directory, beside: Directory, synced: set<Directory>) {
    forall k | 0 < k <= |dir| :: dir[..k] <= beside || found.Lasting(dir[..k]) || ParentOf(dir[..k]) in synced
  }

  /** The directories synced before the candidate can become the config, besides the key's own. */
  function SyncedBefore(m: Mutation): set<Directory> {
    if m.base.Some? then {m.config.dir} else {}
  }

  lemma DroppedWithConfig(run: Run, d: Disk, e: Directory)
    requires Safe(run, d) && run.created && run.m.key.path.Some? && run.dirSync
    requires Anchored(run.found, run.m.key.path.value.dir, run.m.config.dir, SyncedBefore(run.m))
    requires Some(run.candidate) in d.At(run.m.config).maybe && e in d.pending && e <= run.m.key.path.value.dir
    ensures e <= run.m.config.dir
  {
    assert e == run.m.key.path.value.dir[..|e|];
  }

  /**
   Key before config, after a crash: a tree that has a config which may be the candidate has
   the key, provided no directory the key alone needs can be dropped.
   */
  lemma SafeKeepsKey(run: Run, d: Disk, image: map<Path, Bytes>)
    requires Safe(run, d) && run.created && run.m.key.path.Some? && run.dirSync
    requires Anchored(run.found, run.m.key.path.value.dir, run.m.config.dir, SyncedBefore(run.m))
    requires Some(run.candidate) in d.At(run.m.config).maybe && Survives(d, image) && Lookup(image, run.m.config).Some?
    ensures Lookup(image, run.m.key.path.value) == Some(run.payload)
  {
    var key, config := run.m.key.path.value, run.m.config;
    var lost :| SurvivesWithout(d, lost, image);
    assert SurvivesAt(d, lost, config, image) && SurvivesAt(d, lost, key, image);
    forall e <- lost | e <= key.dir
      ensures e <= config.dir
    {
      DroppedWithConfig(run, d, e);
    }
    var v :| v in d.At(key).maybe && Shows(d, v, key, image);
    assert d.Holds(v, Some(run.payload));
  }

  /** On a disk with nothing pending, key before config asks for this of the key's directory. */
  lemma KeyAnchoredWhen(found: Disk, m: Mutation)
    requires found.WellFormed() && found.pending == {} && m.key.path.Some? && (m.base.Some? ==> m.config.dir in found.dirs)
    ensures var dir := m.key.path.value.dir;
            Anchored(found, dir, m.config.dir, SyncedBefore(m)) <==>
            dir in found.dirs || (if m.base.Some? then ParentOf(dir) == m.config.dir else dir <= m.config.dir)
  {
    var dir := m.key.path.value.dir;
    if Anchored(found, dir, m.config.dir, SyncedBefore(m)) {
      assert dir[..|dir|] == dir;
      if m.base.Some? && dir <= m.config.dir {
        AboveExists(found, dir, m.config.dir);
      }
    }
    if dir in found.dirs {
      forall k | 0 < k <= |dir|
        ensures found.Lasting(dir[..k])
      {
        AboveExists(found, dir[..k], dir);
      }
    } else if m.base.Some? && ParentOf(dir) == m.config.dir {
      forall k | 0 < k <= |dir|
        ensures dir[..k] <= m.config.dir || ParentOf(dir[..k]) in SyncedBefore(m)
      {
        assert k == |dir| ==> dir[..k] == dir;
      }
    }
  }

  /** And a lasting commit asks for this of a directory synced together with another one. */
  lemma AnchoredBeside(found: Disk, dir: Directory, other: Directory)
    requires found.WellFormed() && found.pending == {}
    ensures Anchored(found, dir, [], {dir, other}) <==>
            dir in found.dirs || (ParentOf(dir) == other && other in found.dirs)
  {
    if Anchored(found, dir, [], {dir, other}) {
      assert dir[..|dir|] == dir;
      if dir !in found.dirs && other != [] {
        assert dir[..|dir| - 1] == other;
      }
    }
    if dir in found.dirs {
      forall k | 0 < k <= |dir|
        ensures found.Lasting(dir[..k])
      {
        AboveExists(found, dir[..k], dir);
      }
    } else if ParentOf(dir) == other && other in found.dirs {
      forall k | 0 < k <= |dir|
        ensures found.Lasting(dir[..k]) || ParentOf(dir[..k]) in {dir, other}
      {
        assert k == |dir| ==> dir[..k] == dir;
        if k < |dir| {
          AboveExists(found, dir[..k], other);
        }
      }
    }
  }

  /** Otherwise a crash right after the publication leaves the new config without its key. */
  lemma KeyMayBeLost(run: Run, d: Disk) returns (image: map<Path, Bytes>)
    requires Placed(run) && run.created && run.dirSync && d.WellFormed() && JustInstalled(run, d)
    requires !Anchored(run.found, run.m.key.path.value.dir, run.m.config.dir, SyncedBefore(run.m))
    ensures Survives(d, image)
    ensures Lookup(image, run.m.config) == Some(run.m.candidate) && Lookup(image, run.m.key.path.value).None?
  {
    var key, config := run.m.key.path.value, run.m.config;
    var k :| 0 < k <= |key.dir| && !(key.dir[..k] <= config.dir || run.found.Lasting(key.dir[..k])
                                     || ParentOf(key.dir[..k]) in SyncedBefore(run.m));
    var e := key.dir[..k];
    StillPending(run, e, key.dir, run.m.base.Some?);
    image := WorstCrash(d, {e}, config, Some(run.candidate), None);
    assert SurvivesAt(d, {e}, key, image) && Dropped({e}, key.dir);
  }

  /** A directory the commit found or made pending stays so unless its parent is synced. */
  lemma StillPending(run: Run, e: Directory, dir: Directory, configSynced: bool)
    requires run.found.WellFormed() && Grown(run.found, run.first) && dir in run.first.dirs
    requires e != [] && e <= dir && !run.found.Lasting(e)
    requires run.created && run.m.key.path.Some? ==> ParentOf(e) != run.m.key.path.value.dir
    requires configSynced ==> ParentOf(e) != run.m.config.dir
    ensures e in PendingAfter(run, configSynced)
  {
    AboveExists(run.first, e, dir);
  }

  /**
   The exact condition for "key before config" over a whole run: in every state in which the
   candidate may be the config, and after every crash that leaves a config.
   */
  lemma KeyBeforeConfigExactly(run: Run, history: set<Disk>)
    requires Placed(run) && run.created && run.dirSync
    requires forall d <- history :: Safe(run, d)
    requires exists d <- history :: JustInstalled(run, d)
    ensures Anchored(run.found, run.m.key.path.value.dir, run.m.config.dir, SyncedBefore(run.m)) <==>
            forall d <- history, image | Survives(d, image) ::
              Some(run.candidate) in d.At(run.m.config).maybe && Lookup(image, run.m.config).Some? ==>
                Lookup(image, run.m.key.path.value) == Some(run.payload)
  {
    if Anchored(run.found, run.m.key.path.value.dir, run.m.config.dir, SyncedBefore(run.m)) {
      forall d <- history, image | Survives(d, image) && Some(run.candidate) in d.At(run.m.config).maybe && Lookup(image, run.m.config).Some?
        ensures Lookup(image, run.m.key.path.value) == Some(run.payload)
      {
        SafeKeepsKey(run, d, image);
      }
    } else {
      var d :| d in history && JustInstalled(run, d);
      var image := KeyMayBeLost(run, d);
      assert Survives(d, image) && Some(run.candidate) in d.At(run.m.config).maybe;
    }
  }

  /** The directories a committed run has synced. */
  function SyncedBy(run: Run, changed: bool): set<Directory> {
    (if changed then {run.m.config.dir} else {})
    + if run.created && run.m.key.path.Some? then {run.m.key.path.value.dir} else {}
  }

  lemma FirmExactly(run: Run, changed: bool, d: Disk, dir: Directory)
    requires Placed(run) && run.dirSync && dir in run.first.dirs && d.WellFormed() && d.pending == PendingAfter(run, changed)
    ensures d.Firm(dir) <==> Anchored(run.found, dir, [], SyncedBy(run, changed))
  {
    if d.Firm(dir) {
      forall k | 0 < k <= |dir| && !run.found.Lasting(dir[..k]) && ParentOf(dir[..k]) !in SyncedBy(run, changed)
        ensures false
      {
        StillPending(run, dir[..k], dir, changed);
        assert false;
      }
    } else {
      var e :| e in d.pending && e <= dir;
      assert e == dir[..|e|];
    }
  }

  /**
   A committed config, and a key made for it, survive every crash exactly when each directory
   on the way was durable before or is an entry of a directory the commit synced.
   */
  lemma CommittedLastsExactly(run: Run, changed: bool, d: Disk)
    requires Placed(run) && run.dirSync && d.WellFormed() && Sound(run, Committed, changed, d)
    requires run.created ==> KeyPresent(true, d, run.m.key.path.value, run.payload)
    ensures changed ==> (Lasts(d, run.m.config, Some(run.m.candidate)) <==>
                         Anchored(run.found, run.m.config.dir, [], SyncedBy(run, changed)))
    ensures run.created ==> (Lasts(d, run.m.key.path.value, Some(run.payload)) <==>
                             Anchored(run.found, run.m.key.path.value.dir, [], SyncedBy(run, changed)))
  {
    FirmExactly(run, changed, d, run.m.config.dir);
    SurelyMeansEveryCrash(d, run.m.config, Some(run.m.candidate));
    if run.created {
      FirmExactly(run, changed, d, run.m.key.path.value.dir);
      SurelyMeansEveryCrash(d, run.m.key.path.value, Some(run.payload));
    }
  }

  /** A committed key in a directory the commit made elsewhere may be gone while its config is there. */
  lemma NewKeyDirectoryMayVanish(run: Run, d: Disk) returns (image: map<Path, Bytes>)
    requires Placed(run) && run.created && d.WellFormed() && Sound(run, Committed, true, d)
    requires run.m.key.path.value.dir !in run.found.dirs && ParentOf(run.m.key.path.value.dir) != run.m.config.dir
    requires !(run.m.key.path.value.dir <= run.m.config.dir)
    ensures Survives(d, image)
    ensures Lookup(image, run.m.config) == Some(run.m.candidate) && Lookup(image, run.m.key.path.value).None?
  {
    var key, config := run.m.key.path.value, run.m.config;
    StillPending(run, key.dir, key.dir, true);
    assert d.At(config).maybe == {Some(run.candidate)} || !run.dirSync;
    image := WorstCrash(d, {key.dir}, config, Some(run.candidate), None);
    assert SurvivesAt(d, {key.dir}, key, image) && Dropped({key.dir}, key.dir);
  }

  /** Such a commit: over a durable config in one directory, with a key in a new directory beside it. */
  lemma CommittedKeyLost() returns (run: Run, d: Disk, image: map<Path, Bytes>)
    ensures run.found.WellFormed() && run.found.pending == {}
    ensures WellAsked(run.m) && Committable(run.found, run.m, run.payload) && Placed(run)
    ensures Safe(run, d) && Sound(run, Committed, true, d)
    ensures run.created && KeyPresent(run.dirSync, d, run.m.key.path.value, run.payload)
    ensures Survives(d, image)
    ensures Lookup(image, run.m.config) == Some(run.m.candidate) && Lookup(image, run.m.key.path.value).None?
  {
    hide WellAsked, Committable, Placed, Safe, Sound, Survives, KeyPresent, Disk.WellFormed;
    run, d := ExampleRun(), ExampleEnd();
    ExampleStarts();
    ExampleEnds();
    assert EXAMPLE_KEY.dir[0] == "k" && EXAMPLE_CONFIG.dir[0] == "c" && "k"[0] != "c"[0];
    image := NewKeyDirectoryMayVanish(run, d);
  }

  const EXAMPLE_CONFIG := Path(["c"], "g")
  const EXAMPLE_KEY := Path(["k"], "y")

  function ExamplePayload(): Bytes {
    seq(65, i => if i == 64 then NEWLINE else 48)
  }

  function ExampleRun(): Run {
    var plan := KeyPlan(IntentEnsure, Some(EXAMPLE_KEY), [], false);
    var m := Mutation(EXAMPLE_CONFIG, Some([1]), [2], Some(Some(EXAMPLE_KEY)), plan, {["k"]});
    var found := Disk(map[EXAMPLE_CONFIG := Entry(Some(0), {Some(0)})], [File([1], true)], {[], ["c"]}, {});
    Run(m, ExamplePayload(), true, found, found.MakeDirectory(["k"]), true, 2)
  }

  function ExampleEnd(): Disk {
    Disk(map[EXAMPLE_CONFIG := Entry(Some(2), {Some(2)}), BackupPath(EXAMPLE_CONFIG) := Entry(Some(3), {Some(3)}),
             EXAMPLE_KEY := Entry(Some(1), {Some(1)})],
         [File([1], true), File(ExamplePayload(), true), File([2], true), File([1], true)], {[], ["c"], ["k"]}, {["k"]})
  }

  lemma TopDirectories()
    ensures forall f: Directory :: OnTheWay(f, []) ==> f == []
    ensures forall f: Directory, name: string :: OnTheWay(f, [name]) ==> f == [] || f == [name]
  {
  }

  lemma ExampleKeyText()
    ensures KeyText(ExamplePayload())
  {
    GeneratedKeyIs(ExamplePayload());
  }

  lemma ExampleStarts()
    ensures ExampleRun().found.WellFormed() && Placed(ExampleRun())
    ensures WellAsked(ExampleRun().m) && Committable(ExampleRun().found, ExampleRun().m, ExamplePayload())
  {
    hide KeyText, ExamplePayload, Reserved;
    var run := ExampleRun();
    TopDirectories();
    assert run.found.WellFormed();
    assert EXAMPLE_KEY.dir[0] == "k" && EXAMPLE_CONFIG.dir[0] == "c" && "k"[0] != "c"[0];
    MakeDirectoryGrows(run.found, ["k"]);
    TemporariesDiffer(run.m);
    ExampleKeyText();
    assert Leads(["k"], run.found.dirs + MadeFor(run.m)) by {
      assert ["k"] in MadeFor(run.m);
    }
    assert run.found.Live(BackupPath(EXAMPLE_CONFIG)).None? && TemporariesFree(run.found, run.m);
    assert KeySuits(run.found, run.m, ExamplePayload());
  }

  lemma ExampleEndShape()
    ensures ExampleEnd().WellFormed() && EXAMPLE_KEY.dir != EXAMPLE_CONFIG.dir && BackupPath(EXAMPLE_CONFIG) != EXAMPLE_CONFIG
    ensures ExampleEnd().At(EXAMPLE_CONFIG) == Entry(Some(2), {Some(2)})
    ensures ExampleEnd().At(BackupPath(EXAMPLE_CONFIG)) == Entry(Some(3), {Some(3)})
    ensures ExampleEnd().At(EXAMPLE_KEY) == Entry(Some(1), {Some(1)})
    ensures ExampleRun().first.Live(EXAMPLE_KEY).None?
    ensures forall p :: p in ExampleEnd().names <==> p in {EXAMPLE_CONFIG, BackupPath(EXAMPLE_CONFIG), EXAMPLE_KEY}
  {
    SiblingsDiffer(EXAMPLE_CONFIG);
    assert EXAMPLE_KEY.dir[0] == "k" && EXAMPLE_CONFIG.dir[0] == "c" && "k"[0] != "c"[0];
    assert ParentOf(["k"]) == [] && ParentOf(["c"]) == [];
    TopDirectories();
  }

  lemma ExampleEnds()
    ensures ExampleEnd().WellFormed() && ExampleRun().first.WellFormed()
    ensures Safe(ExampleRun(), ExampleEnd()) && Sound(ExampleRun(), Committed, true, ExampleEnd())
    ensures KeyPresent(true, ExampleEnd(), EXAMPLE_KEY, ExamplePayload())
  {
    hide ExamplePayload, BackupPath, Disk.At, Disk.WellFormed, TempKeyPath, Temporaries;
    var run, d := ExampleRun(), ExampleEnd();
    ExampleEndShape();
    ExampleStarts();
    assert run.first.WellFormed() && d.WellFormed();
    assert d.Read(EXAMPLE_KEY) == Some(ExamplePayload()) && d.Surely(EXAMPLE_KEY, Some(ExamplePayload()));
    assert ParentOf(["k"]) == [];
    assert d.Settled(EXAMPLE_CONFIG.dir);
    assert BackupHeld(run.m, true, d);
    assert run.first.pending == {["k"]};
    assert PendingAfter(run, true) == {["k"]};
    assert Installed(d, run.m, true, 2);
    assert OnlyNames(run.first, d, Names(run.m)) by {
      forall p | p !in Names(run.m)
        ensures Calm(run.first, d, p)
      {
        AbsentEntries(run.first, d, p);
      }
    }
    assert BaseSafe(run, d) && KeyFirst(run, d);
    assert ExistingKeyKept(run, d);
    assert DirectoriesKept(run.found, d);
  }

  lemma AbsentEntries(d: Disk, later: Disk, p: Path)
    requires p !in d.names && p !in later.names
    ensures Calm(d, later, p)
  {
  }
}
