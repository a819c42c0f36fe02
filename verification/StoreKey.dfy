/** Creation of a new Gateway key: matrix, staging, publication and rollback. */
module StoreKey {
  import opened Options
  import opened StoreDisk
  import opened StoreVolume

  datatype KeyIntent = IntentNone | IntentInspect | IntentEnsure

  datatype KeyState = KeyNone | KeyMissing | KeyNeedsConfirmation | KeyReusable

  datatype KeyMode = Noop | Reuse | Create

  datatype KeyPlan = KeyPlan(intent: KeyIntent, path: Option<Path>, distinctFrom: seq<Path>, allowExisting: bool)

  const NEWLINE: byte := 10

  predicate LowerHex(b: byte) {
    48 <= b <= 57 || 97 <= b <= 102
  }

  predicate GeneratedKey(payload: Bytes) {
    |payload| == 65 && payload[64] == NEWLINE && forall k :: 0 <= k < 64 ==> LowerHex(payload[k])
  }

  const HEX_DIGITS := "0123456789abcdef"

  ghost predicate HexDigit(b: byte) {
    exists digit <- HEX_DIGITS :: b as int == digit as int
  }

  /** The text of a generated key: 64 lower-case hexadecimal digits and a line end. */
  ghost predicate KeyText(payload: Bytes) {
    && |payload| == 65 && payload[64] as int == '\n' as int
    && forall k | 0 <= k < 64 :: HexDigit(payload[k])
  }

  lemma HexDigits(b: byte)
    ensures LowerHex(b) <==> HexDigit(b)
  {
    if LowerHex(b) {
      var k := if b <= 57 then b as int - 48 else b as int - 87;
      assert HEX_DIGITS[k] in HEX_DIGITS && HEX_DIGITS[k] as int == b as int;
    }
  }

  lemma GeneratedKeyIs(payload: Bytes)
    ensures GeneratedKey(payload) <==> KeyText(payload)
  {
    hide LowerHex, HexDigit;
    forall k | 0 <= k < |payload|
      ensures LowerHex(payload[k]) <==> HexDigit(payload[k])
    {
      HexDigits(payload[k]);
    }
  }

  function KeyCommitMode(plan: KeyPlan, state: KeyState, payload: Bytes): Option<KeyMode> {
    match state
    case KeyNone =>
      if plan.intent.IntentNone? && plan.path.None? && !plan.allowExisting && plan.distinctFrom == [] && payload == []
      then Some(Noop) else None
    case KeyMissing =>
      if plan.intent.IntentEnsure? && GeneratedKey(payload) then Some(Create) else None
    case KeyNeedsConfirmation => None
    case KeyReusable =>
      if payload != [] then None
      else if plan.intent.IntentInspect? && !plan.allowExisting then Some(Reuse)
      else if plan.intent.IntentEnsure? && plan.allowExisting then Some(Reuse)
      else None
  }

  function TempKeyPath(target: Path): Path {
    Path(target.dir, "." + target.name + ".ai-cli-gateway.tmp")
  }

  lemma TempKeyPathDiffers(target: Path)
    ensures TempKeyPath(target) != target
  {
    assert |TempKeyPath(target).name| > |target.name|;
  }

  /** The key is in place for readers now and, where directories sync, its entry is certain. */
  ghost predicate KeyPresent(dirSync: bool, d: Disk, target: Path, payload: Bytes)
    requires d.WellFormed()
  {
    d.Read(target) == Some(payload) && (dirSync ==> d.Surely(target, Some(payload)))
  }

  class StagedKey {
    const volume: Volume
    const target: Path
    const temp: Path
    const inode: Inode
    const payload: Bytes
    /** Paths the key must not be another name of. */
    const distinct: set<Path>
    var identified: bool
    var published: bool
    var closed: bool

    constructor (volume: Volume, target: Path, inode: Inode, payload: Bytes, distinct: set<Path>)
      ensures this.volume == volume && this.target == target && this.temp == TempKeyPath(target)
      ensures this.inode == inode && this.payload == payload && this.distinct == distinct
      ensures !identified && !published && !closed
    {
      this.volume, this.target, this.temp := volume, target, TempKeyPath(target);
      this.inode, this.payload, this.distinct := inode, payload, distinct;
      identified, published, closed := false, false, false;
    }

    function Name(): Path
      reads this
    {
      if published then target else temp
    }

    /** No path the key must differ from shows its file. */
    predicate Distinct(d: Disk) {
      forall q <- distinct :: d.Live(q) != Some(inode)
    }

    method ValidatePath(name: Path) returns (ok: bool)
      modifies volume`faults
      ensures old(volume.faults) <= volume.faults
      ensures ok ==> volume.disk.Live(name) == Some(inode) && Distinct(volume.disk)
      ensures volume.Faultless() && !closed && identified && volume.disk.Live(name) == Some(inode) && Distinct(volume.disk) ==> ok
    {
      if closed || !identified {
        return false;
      }
      var fault := volume.Fault();
      ok := !fault && volume.disk.Live(name) == Some(inode) && Distinct(volume.disk);
    }

    /** Fills and syncs the newly created file. */
    method Fill() returns (ok: bool)
      requires volume.Valid() && |volume.origin.files| <= inode == |volume.disk.files| - 1 && !closed
      requires volume.disk.Live(temp) == Some(inode)
      modifies this`identified, volume`disk, volume`recent, volume`faults
      ensures volume.Valid() && volume.Moved({})
      ensures volume.disk.dirs == old(volume.disk).dirs && volume.disk.pending == old(volume.disk).pending
      ensures volume.disk.names == old(volume.disk).names && |volume.disk.files| == |old(volume.disk).files|
      ensures volume.disk.files[..inode] == old(volume.disk).files[..inode]
      ensures ok ==> identified && volume.disk.files[inode] == File(payload, true) && volume.disk.Live(temp) == Some(inode)
                     && Distinct(volume.disk) && target !in distinct
      ensures volume.Faultless() && Distinct(volume.disk) && target !in distinct ==> ok
    {
      hide OnlyAt, Volume.Valid, Disk.WellFormed;
      var unidentified := volume.Fault();
      if unidentified {
        return false;
      }
      identified := true;
      var interrupted := volume.Fault();
      ok := !interrupted && target !in distinct;
      if ok {
        ok := volume.Write(inode, payload);
      }
      if ok {
        ok := volume.SyncFile(inode);
      }
      if ok {
        ok := ValidatePath(temp);
      }
    }

    method RemoveOwned(name: Path) returns (ok: bool)
      requires volume.Valid()
      modifies volume`disk, volume`recent, volume`touched, volume`faults
      ensures volume.Valid() && volume.Moved({name})
      ensures ok ==> volume.disk.Live(name).None?
      ensures volume.disk.files == old(volume.disk).files
      ensures forall p | p != name :: Calm(old(volume.disk), volume.disk, p)
      ensures volume.disk.Live(name) in {None, old(volume.disk).Live(name)}
      ensures volume.Faultless() && identified && old(volume.disk).Live(name) in {None, Some(inode)} ==> ok
    {
      hide OnlyAt, Volume.Valid, Disk.WellFormed;
      if !identified {
        return false;
      }
      var unseen := volume.Fault();
      if unseen {
        return false;
      }
      if volume.disk.Live(name).None? {
        return true;
      }
      if volume.disk.Live(name) != Some(inode) {
        return false;
      }
      ok := volume.Unlink(name);
      if !ok {
        return false;
      }
      var unconfirmed := volume.Fault();
      if unconfirmed {
        return false;
      }
      ghost var unlinked := volume.disk;
      ok := volume.SyncDirectory(name.dir);
      forall p | p != name
        ensures Calm(old(volume.disk), volume.disk, p)
      {
        assert Calm(unlinked, volume.disk, p);
      }
    }

    method Rollback() returns (ok: bool)
      requires volume.Valid()
      modifies this`closed, volume`disk, volume`recent, volume`touched, volume`faults
      ensures volume.Valid() && volume.Moved({Name()})
      ensures closed
      ensures ok ==> !old(closed) && volume.disk.Live(Name()).None?
      ensures volume.disk.files == old(volume.disk).files
      ensures forall p | p != Name() :: Calm(old(volume.disk), volume.disk, p)
      ensures volume.disk.Live(Name()) in {None, old(volume.disk).Live(Name())}
      ensures volume.Faultless() && !old(closed) && identified && old(volume.disk).Live(Name()) in {None, Some(inode)} ==> ok
    {
      hide OnlyAt, Volume.Valid, Disk.WellFormed;
      if closed {
        return false;
      }
      ok := RemoveOwned(if published then target else temp);
      closed := true;
      var unclosed := volume.Fault();
      ok := ok && !unclosed;
    }

    method Finish() returns (ok: bool)
      modifies this`closed, volume`faults
      ensures old(volume.faults) <= volume.faults
      ensures closed
      ensures ok ==> published && !old(closed)
      ensures volume.Faultless() && published && !old(closed) ==> ok
    {
      ok := !closed && published;
      closed := true;
      var unclosed := volume.Fault();
      ok := ok && !unclosed;
    }

    /** Checks a key that has just reached its target and syncs the directory, or takes it back. */
    method SettlePublished() returns (ok: bool, clean: bool)
      requires volume.Valid() && !closed && published
      requires inode < |volume.disk.files| && volume.disk.files[inode] == File(payload, true)
      requires volume.disk.Live(target) == Some(inode)
      modifies this`closed, volume`disk, volume`recent, volume`touched, volume`faults
      ensures volume.Valid() && volume.Moved({target})
      ensures volume.disk.files == old(volume.disk).files
      ensures forall p | p != target :: Calm(old(volume.disk), volume.disk, p)
      ensures ok ==> !closed && clean && volume.disk.Live(target) == Some(inode)
                     && KeyPresent(volume.dirSync, volume.disk, target, payload)
                     && volume.disk.dirs == old(volume.disk).dirs
                     && volume.disk.pending == Unsettled(volume.dirSync, old(volume.disk).pending, target.dir)
      ensures !ok ==> closed && (clean ==> volume.disk.Live(target).None?)
      ensures volume.Faultless() && identified && Distinct(old(volume.disk)) ==> ok
    {
      hide OnlyAt, Volume.Valid, Disk.WellFormed;
      clean := true;
      ghost var renamed := volume.disk;
      SyncedName(renamed, target);
      ok := ValidatePath(target);
      if ok {
        ok := volume.SyncDirectory(target.dir);
      }
      assert forall p :: Calm(renamed, volume.disk, p);
      if !ok {
        ghost var settled := volume.disk;
        clean := Rollback();
        forall p | p != target
          ensures Calm(renamed, volume.disk, p)
        {
          assert Calm(renamed, settled, p) && Calm(settled, volume.disk, p);
        }
      }
    }

    /**
     Moves the staged key to its target without replacing anything and syncs the key
     directory. Every failure rolls back; `clean` says whether that rollback succeeded.
     */
    method Publish() returns (ok: bool, clean: bool)
      requires volume.Valid() && !closed && !published && temp == TempKeyPath(target)
      requires inode < |volume.disk.files| && volume.disk.files[inode] == File(payload, true)
      requires volume.disk.Live(temp) == Some(inode)
      modifies this`published, this`closed, volume`disk, volume`recent, volume`touched, volume`faults
      ensures volume.Valid() && volume.Moved({temp, target})
      ensures old(volume.disk).Live(target).Some? ==> !ok && volume.Moved({temp})
      ensures volume.disk.files == old(volume.disk).files
      ensures forall p | p !in {temp, target} :: Calm(old(volume.disk), volume.disk, p)
      ensures ok ==> published && !closed && clean
                     && volume.disk.Live(temp).None? && volume.disk.Live(target) == Some(inode)
                     && KeyPresent(volume.dirSync, volume.disk, target, payload)
                     && volume.disk.dirs == old(volume.disk).dirs
                     && volume.disk.pending == Unsettled(volume.dirSync, old(volume.disk).pending, target.dir)
      ensures !ok && clean ==>
                volume.disk.Live(temp).None? && volume.disk.Live(target) == old(volume.disk).Live(target)
      ensures !ok ==> closed
      ensures volume.Faultless() && identified && old(volume.disk).Live(target).None? && Distinct(old(volume.disk)) && target !in distinct ==> ok
    {
      hide OnlyAt, Volume.Valid, Disk.WellFormed;
      TempKeyPathDiffers(target);
      clean := true;
      var canceled := volume.Fault();
      ok := !canceled;
      if ok {
        ok := ValidatePath(temp);
      }
      if ok && volume.disk.Live(target).Some? {
        ok := false;
      }
      if ok {
        var interrupted := volume.Fault();
        ok := !interrupted;
      }
      if ok {
        ok := volume.Rename(temp, target, true);
      }
      if !ok {
        clean := Rollback();
        assert Calm(old(volume.disk), volume.disk, target);
        return;
      }
      published := true;
      ghost var renamed := volume.disk;
      assert Distinct(old(volume.disk)) && target !in distinct ==> Distinct(renamed);
      ok, clean := SettlePublished();
      assert Calm(renamed, volume.disk, temp);
      forall p | p !in {temp, target}
        ensures Calm(old(volume.disk), volume.disk, p)
      {
        assert Calm(renamed, volume.disk, p);
      }
    }
  }

  lemma Unfilled(d: Disk, made: Disk, p: Path)
    requires d.Live(p).None? && made == d.Create(p, NoFault)
    ensures made.files == d.files + [File([], false)] && made.Live(p) == Some(|d.files|)
    ensures forall q | q != p :: Calm(d, made, q)
  {
  }

  /** A file made just now has no other name. */
  lemma NewFileHasOneName(d: Disk, later: Disk, p: Path, distinct: set<Path>)
    requires d.WellFormed() && p !in distinct && forall q | q != p :: later.Live(q) == d.Live(q)
    ensures forall q <- distinct :: later.Live(q) != Some(|d.files|)
  {
    forall q <- distinct
      ensures later.Live(q) != Some(|d.files|)
    {
      if q in d.names {
        assert d.names[q].live in d.names[q].maybe;
      }
    }
  }

  /**
   Creates and fills the temporary key file, in a directory that must exist. `clean` says
   whether a failure left nothing behind.
   */
  method StageNewKey(volume: Volume, target: Path, payload: Bytes, distinct: set<Path>)
    returns (staged: StagedKey?, clean: bool)
    requires volume.Valid()
    modifies volume
    ensures volume.Valid() && volume.Moved({TempKeyPath(target)})
    ensures volume.disk.Extends(old(volume.disk))
    ensures forall p | p != TempKeyPath(target) :: Calm(old(volume.disk), volume.disk, p)
    ensures old(volume.abandoned) <= volume.abandoned <= old(volume.abandoned) + {TempKeyPath(target)}
    ensures old(volume.disk).Live(TempKeyPath(target)).Some? || target.dir !in old(volume.disk).dirs ==>
              staged == null && volume.disk == old(volume.disk) && volume.touched == old(volume.touched)
    ensures staged != null ==>
              && fresh(staged) && staged.volume == volume && staged.target == target && staged.temp == TempKeyPath(target)
              && staged.payload == payload && staged.inode == |old(volume.disk).files| && staged.distinct == distinct
              && !staged.published && !staged.closed && staged.identified && clean
              && volume.disk.files == old(volume.disk).files + [File(payload, true)]
              && volume.disk.dirs == old(volume.disk).dirs && volume.disk.pending == old(volume.disk).pending
              && volume.disk.Live(TempKeyPath(target)) == Some(staged.inode)
              && old(volume.disk).Live(TempKeyPath(target)).None?
              && volume.disk.Live(target).None? && target !in distinct && staged.Distinct(volume.disk)
              && volume.abandoned == old(volume.abandoned)
    ensures volume.Faultless() && Stageable(old(volume.disk), target, distinct) ==> staged != null
    ensures staged == null && clean ==>
              || TempKeyPath(target) in volume.abandoned
              || volume.disk.Live(TempKeyPath(target)) == old(volume.disk).Live(TempKeyPath(target))
    ensures volume.abandoned != old(volume.abandoned) ==>
              volume.disk.Live(TempKeyPath(target)).Some? && old(volume.disk).Live(TempKeyPath(target)).None?
  {
    hide OnlyAt, Volume.Valid, Disk.WellFormed;
    TempKeyPathDiffers(target);
    clean := true;
    if volume.disk.Live(target).Some? || target.dir !in volume.disk.dirs {
      return null, true;
    }
    var refused := volume.Fault();
    if refused {
      return null, true;
    }
    var made := volume.Create(TempKeyPath(target));
    if made.None? {
      return null, true;
    }
    var key := new StagedKey(volume, target, made.value, payload, distinct);
    ghost var empty := volume.disk;
    Unfilled(old(volume.disk), empty, TempKeyPath(target));
    var ok := key.Fill();
    assert forall p :: volume.disk.At(p) == empty.At(p);
    if TempKeyPath(target) !in distinct {
      NewFileHasOneName(old(volume.disk), volume.disk, TempKeyPath(target), distinct);
    }
    if ok {
      var canceled := volume.Fault();
      ok := !canceled;
    }
    if !ok {
      ghost var created := volume.disk;
      clean := key.Rollback();
      forall p | p != TempKeyPath(target)
        ensures Calm(old(volume.disk), volume.disk, p)
      {
        assert Calm(created, volume.disk, p);
      }
      return null, clean;
    }
    return key, true;
  }

  /** What a new key needs: a directory, two free names, and names it may bear. */
  predicate Stageable(d: Disk, target: Path, distinct: set<Path>) {
    && target.dir in d.dirs && d.Live(target).None? && d.Live(TempKeyPath(target)).None?
    && target !in distinct && TempKeyPath(target) !in distinct
  }
}
