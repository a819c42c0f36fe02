/**
 The configuration commit transaction: staging, publication, restore, rollback and
 cleanup of the config, its backup and a new Gateway key, with every step able to fail.
 */
module ConfigStore {
  import opened Options
  import opened StoreDisk
  import opened StoreFiles
  import opened StoreKey
  import opened StoreVolume

  datatype CommitState = NotCommitted | RolledBack | Committed | RecoveryRequired | Indeterminate

  datatype CommitResult = CommitResult(state: CommitState, configChanged: bool, keyCreated: bool, backupPath: Option<Path>)

  /** `decoded` is what the production decoder says of the candidate: its key file, if any. */
  datatype Mutation = Mutation(config: Path, base: Option<Bytes>, candidate: Bytes,
                               decoded: Option<Option<Path>>, key: KeyPlan, privateDirs: set<Directory>)

  const MAX_CONFIG_BYTES := 1048576

  function Sibling(config: Path, suffix: string): Path {
    Path(config.dir, config.name + suffix)
  }

  function BackupPath(config: Path): (r: Path)
    ensures r.dir == config.dir
  {
    Sibling(config, ".bak")
  }

  function LockPath(config: Path): Path { Sibling(config, ".lock") }

  function Temporaries(config: Path): set<Path> {
    {Sibling(config, ".tmp"), Sibling(config, ".bak.tmp"), Sibling(config, ".rollback.tmp"), Sibling(config, ".bak.restore.tmp")}
  }

  function Reserved(config: Path): set<Path> {
    {config, BackupPath(config), LockPath(config)} + Temporaries(config)
  }

  lemma SiblingsDiffer(config: Path)
    ensures BackupPath(config) != config
    ensures config !in Temporaries(config) && BackupPath(config) !in Temporaries(config)
    ensures |Temporaries(config)| == 4
  {
    var n := |config.name|;
    assert BackupPath(config).name[n + 1] == 'b' && Sibling(config, ".tmp").name[n + 1] == 't';
    assert |BackupPath(config).name| == n + 4 && |Sibling(config, ".tmp").name| == n + 4;
    assert |Sibling(config, ".bak.tmp").name| == n + 8 && |Sibling(config, ".rollback.tmp").name| == n + 13;
    assert |Sibling(config, ".bak.restore.tmp").name| == n + 16;
  }

  predicate ValidKeyPlan(m: Mutation)
    requires m.decoded.Some?
  {
    match m.decoded.value
    case None => m.key.intent.IntentNone? && m.key.path.None? && !m.key.allowExisting && m.key.distinctFrom == []
    case Some(p) =>
      && m.key.path == Some(p)
      && !m.key.intent.IntentNone?
      && !(m.key.intent.IntentInspect? && m.key.allowExisting)
      && p !in Reserved(m.config)
      && p !in m.key.distinctFrom
      && forall i, j :: 0 <= i < j < |m.key.distinctFrom| ==> m.key.distinctFrom[i] != m.key.distinctFrom[j]
  }

  /** The base bytes are at the backup path, as certainly as a sync of the config directory makes them. */
  ghost predicate BackupHeld(m: Mutation, dirSync: bool, d: Disk)
    requires d.WellFormed()
  {
    m.base.Some? ==>
      && d.Read(BackupPath(m.config)) == m.base
      && (dirSync ==> d.Surely(BackupPath(m.config), m.base) && d.Settled(m.config.dir))
  }

  method ValidateBaseRevision(volume: Volume, m: Mutation) returns (ok: bool)
    requires volume.disk.WellFormed()
    modifies volume`faults
    ensures old(volume.faults) <= volume.faults
    ensures ok ==> volume.disk.Read(m.config) == m.base
    ensures volume.Faultless() && volume.disk.Read(m.config) == m.base ==> ok
  {
    var fault := volume.Fault();
    ok := !fault && volume.disk.Read(m.config) == m.base;
  }

  // The staged files keep their positions: candidate, backup, rollback, restore.
  const CANDIDATE: nat := 0
  const BACKUP: nat := 1
  const ROLLBACK: nat := 2
  const RESTORE: nat := 3

  function TemporaryName(k: nat): string {
    match k
    case 0 => ".tmp"
    case 1 => ".bak.tmp"
    case 2 => ".rollback.tmp"
    case _ => ".bak.restore.tmp"
  }

  function Temporary(m: Mutation, k: nat): Path {
    Sibling(m.config, TemporaryName(k))
  }

  function StagedPayloads(m: Mutation, prior: Option<Bytes>): seq<Bytes> {
    if m.base.None? then [m.candidate]
    else [m.candidate, m.base.value, m.base.value] + if prior.None? then [] else [prior.value]
  }

  /** File `k` waits, complete and synced, at its temporary name. */
  ghost predicate Waiting(d: Disk, m: Mutation, files: seq<StoreFile>, k: nat, payload: Bytes) {
    && k < |files|
    && files[k] == Fresh(Temporary(m, k), files[k].inode, payload)
    && files[k].inode < |d.files| && d.files[files[k].inode] == File(payload, true)
    && d.Live(Temporary(m, k)) == Some(files[k].inode)
  }

  ghost predicate AllWaiting(first: Disk, d: Disk, m: Mutation, files: seq<StoreFile>, payloads: seq<Bytes>) {
    && |files| == |payloads| <= 4
    && (forall k :: 0 <= k < |files| ==> Waiting(d, m, files, k, payloads[k]) && files[k].inode == |first.files| + k)
    && |d.files| == |first.files| + |files|
  }

  ghost predicate TemporariesAccounted(first: Disk, d: Disk, m: Mutation, files: seq<StoreFile>, abandoned: set<Path>) {
    forall k :: 0 <= k < 4 ==> Accounted(first, d, files, abandoned, Temporary(m, k))
  }

  lemma TemporariesDiffer(m: Mutation)
    ensures forall i, j :: 0 <= i < j < 4 ==> Temporary(m, i) != Temporary(m, j)
    ensures forall k :: 0 <= k < 4 ==> Temporary(m, k) in Temporaries(m.config)
    ensures forall k :: 0 <= k < 4 ==> Temporary(m, k) != m.config && Temporary(m, k) != BackupPath(m.config)
    ensures BackupPath(m.config) != m.config
    ensures m.config !in Temporaries(m.config) && BackupPath(m.config) !in Temporaries(m.config)
  {
    SiblingsDiffer(m.config);
    var n := |m.config.name|;
    assert |Temporary(m, 0).name| == n + 4 && |Temporary(m, 1).name| == n + 8;
    assert |Temporary(m, 2).name| == n + 13 && |Temporary(m, 3).name| == n + 16;
  }

  lemma StagedNext(first: Disk, d: Disk, m: Mutation, files: seq<StoreFile>, payloads: seq<Bytes>, payload: Bytes)
    requires AllWaiting(first, d, m, files, payloads) && |files| < 4
    ensures AllWaiting(first, d.Put(Temporary(m, |files|), payload), m,
                       files + [Fresh(Temporary(m, |files|), |d.files|, payload)], payloads + [payload])
  {
    TemporariesDiffer(m);
  }

  /** A set of waiting files over untouched names accounts for all four temporaries. */
  lemma WaitingAccounted(first: Disk, d: Disk, m: Mutation, files: seq<StoreFile>, payloads: seq<Bytes>)
    requires AllWaiting(first, d, m, files, payloads)
    requires forall k :: 0 <= k < |files| ==> first.Live(Temporary(m, k)).None?
    requires forall k :: |files| <= k < 4 ==> d.Live(Temporary(m, k)) == first.Live(Temporary(m, k))
    ensures TemporariesAccounted(first, d, m, files, {})
  {
    forall k | 0 <= k < 4
      ensures Accounted(first, d, files, {}, Temporary(m, k))
    {
      if k < |files| {
        assert Waiting(d, m, files, k, payloads[k]);
        assert files[k].Owns(Temporary(m, k), files[k].inode);
      }
    }
  }

  lemma SameEntryReadsSame(d: Disk, later: Disk, p: Path)
    requires d.WellFormed() && later.WellFormed() && later.Extends(d) && later.At(p) == d.At(p)
    ensures later.Read(p) == d.Read(p)
  {
  }

  /** How many temporaries are staged: the candidate, over a base its two copies, and one of an earlier backup. */
  ghost function TemporariesNeeded(d: Disk, m: Mutation): nat {
    if m.base.None? then 1 else if d.Live(BackupPath(m.config)).None? then 3 else 4
  }

  /** No temporary file that will be staged is there yet. */
  ghost predicate TemporariesFree(d: Disk, m: Mutation) {
    forall k :: 0 <= k < TemporariesNeeded(d, m) ==> d.Live(Temporary(m, k)).None?
  }

  method StageFiles(volume: Volume, directory: TransactionDirectory, m: Mutation)
    returns (ok: bool, prior: Option<Bytes>)
    requires directory.Valid() && directory.volume == volume && directory.dir == m.config.dir
    requires directory.files == [] && volume.abandoned == {}
    modifies directory`files, volume
    ensures directory.Valid() && volume.Moved(Temporaries(m.config))
    ensures volume.disk.Extends(old(volume.disk))
    ensures forall p | p !in Temporaries(m.config) :: volume.disk.At(p) == old(volume.disk).At(p)
    ensures forall f <- directory.files :: f.path in Temporaries(m.config)
    ensures TemporariesAccounted(old(volume.disk), volume.disk, m, directory.files, volume.abandoned)
    ensures volume.abandoned <= Temporaries(m.config)
    ensures ok ==> volume.abandoned == {}
                   && (forall k :: 0 <= k < |directory.files| ==> old(volume.disk).Live(Temporary(m, k)).None?)
                   && AllWaiting(old(volume.disk), volume.disk, m, directory.files, StagedPayloads(m, prior))
                   && (m.base.Some? ==> prior == old(volume.disk).Read(BackupPath(m.config)))
                   && volume.disk.dirs == old(volume.disk).dirs && volume.disk.pending == old(volume.disk).pending
    ensures volume.Faultless() && TemporariesFree(old(volume.disk), m) ==> ok
    ensures ok ==> TemporariesFree(old(volume.disk), m)
  {
    hide OnlyAt, Volume.Valid, Disk.WellFormed, TemporariesAccounted, Sibling, Temporary, TemporaryName, Temporaries;
    TemporariesDiffer(m);
    ghost var first := volume.disk;
    ghost var waiting: seq<Bytes> := [];
    prior := None;
    ok := StageNext(directory, m, first, waiting, m.candidate);
    if !ok {
      return;
    }
    waiting := [m.candidate];
    var interrupted := volume.Fault();
    if interrupted {
      return false, None;
    }
    if m.base.None? {
      return;
    }
    prior := volume.disk.Read(BackupPath(m.config));
    SameEntryReadsSame(first, volume.disk, BackupPath(m.config));
    ok := StageNext(directory, m, first, waiting, m.base.value);
    if !ok {
      return;
    }
    waiting := [m.candidate, m.base.value];
    ok := StageNext(directory, m, first, waiting, m.base.value);
    if !ok {
      return;
    }
    waiting := [m.candidate, m.base.value, m.base.value];
    if prior.Some? {
      ok := StageNext(directory, m, first, waiting, prior.value);
    }
  }

  method StageNext(directory: TransactionDirectory, m: Mutation, ghost first: Disk, ghost payloads: seq<Bytes>, payload: Bytes)
    returns (ok: bool)
    requires directory.Valid() && directory.dir == m.config.dir && directory.volume.abandoned == {}
    requires AllWaiting(first, directory.volume.disk, m, directory.files, payloads) && |payloads| < 4
    requires forall k :: 0 <= k < |payloads| ==> first.Live(Temporary(m, k)).None?
    requires forall k :: |payloads| <= k < 4 ==> directory.volume.disk.Live(Temporary(m, k)) == first.Live(Temporary(m, k))
    modifies directory`files, directory.volume
    ensures directory.Valid() && directory.volume.Moved(Temporaries(m.config))
    ensures directory.volume.disk.Extends(old(directory.volume.disk))
    ensures forall p | p !in Temporaries(m.config) :: directory.volume.disk.At(p) == old(directory.volume.disk).At(p)
    ensures forall f <- directory.files :: f in old(directory.files) || f.path in Temporaries(m.config)
    ensures TemporariesAccounted(first, directory.volume.disk, m, directory.files, directory.volume.abandoned)
    ensures directory.volume.abandoned <= Temporaries(m.config)
    ensures ok ==>
              && directory.volume.abandoned == {}
              && AllWaiting(first, directory.volume.disk, m, directory.files, payloads + [payload])
              && directory.volume.disk.dirs == old(directory.volume.disk).dirs
              && directory.volume.disk.pending == old(directory.volume.disk).pending
              && (forall k :: 0 <= k < |payloads| + 1 ==> first.Live(Temporary(m, k)).None?)
              && (forall k :: |payloads| + 1 <= k < 4 ==>
                    directory.volume.disk.Live(Temporary(m, k)) == first.Live(Temporary(m, k)))
    ensures directory.volume.Faultless() && first.Live(Temporary(m, |payloads|)).None? ==> ok
  {
    hide OnlyAt, Volume.Valid, Disk.WellFormed;
    TemporariesDiffer(m);
    var k := |directory.files|;
    ghost var before := directory.volume.disk;
    ghost var files := directory.files;
    ok := directory.Stage(m.config.name + TemporaryName(k), payload);
    if ok {
      StagedNext(first, before, m, files, payloads, payload);
      WaitingAccounted(first, directory.volume.disk, m, directory.files, payloads + [payload]);
    } else {
      FailedStageAccounted(directory, first, before, files, m, payloads);
    }
  }

  lemma FailedStageAccounted(directory: TransactionDirectory, first: Disk, before: Disk, files: seq<StoreFile>,
                             m: Mutation, payloads: seq<Bytes>)
    requires AllWaiting(first, before, m, files, payloads) && |files| < 4
    requires forall k :: 0 <= k < |files| ==> first.Live(Temporary(m, k)).None?
    requires forall k :: |files| <= k < 4 ==> before.Live(Temporary(m, k)) == first.Live(Temporary(m, k))
    requires directory.StageFailed(before, files, {}, Temporary(m, |files|))
    ensures TemporariesAccounted(first, directory.volume.disk, m, directory.files, directory.volume.abandoned)
  {
    TemporariesDiffer(m);
    var d := directory.volume.disk;
    forall k | 0 <= k < 4
      ensures Accounted(first, d, directory.files, directory.volume.abandoned, Temporary(m, k))
    {
      if k < |files| {
        assert Waiting(before, m, files, k, payloads[k]);
        assert directory.files[k].Owns(Temporary(m, k), files[k].inode);
      } else if k == |files| && d.Live(Temporary(m, k)).Some? && |directory.files| > |files| {
        assert NoOwner(files, Temporary(m, k));
      }
    }
  }
}
