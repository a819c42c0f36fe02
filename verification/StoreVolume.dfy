/** The mounted directories the store works on, with every change recorded. */
module StoreVolume {
  import opened Options
  import opened StoreDisk

  /**
   The mounted directories. Every state the disk goes through is recorded: in `past`
   those before the last checkpoint, in `recent` those since. Since the checkpoint the
   disk has differed from `origin` only at the names in `touched`.
   */
  class Volume {
    const dirSync: bool
    var disk: Disk
    ghost var past: set<Disk>
    ghost var recent: set<Disk>
    ghost var origin: Disk
    ghost var touched: set<Path>
    /** Names a failed stage left on disk that no later cleanup will try to unlink. */
    ghost var abandoned: set<Path>
    /** How often something went wrong: a failed system call or check, or a cancellation. */
    ghost var faults: nat

    ghost predicate Valid()
      reads this`disk, this`recent, this`origin, this`touched
      ensures Valid() ==> disk.WellFormed() && |origin.files| <= |disk.files|
    {
      && disk in recent
      && forall d <- recent :: OnlyAt(origin, d, touched)
    }

    /** Nothing happened since the last checkpoint. */
    ghost predicate AtCheckpoint()
      reads this`disk, this`recent, this`origin, this`touched
      ensures AtCheckpoint() ==> Valid()
    {
      Valid() && recent == {disk} && origin == disk && touched == {}
    }

    twostate predicate Moved(new places: set<Path>)
      reads this`past, this`recent, this`origin, this`touched, this`faults
    {
      && origin == old(origin) && past == old(past) && old(faults) <= faults
      && old(touched) <= touched <= old(touched) + places
      && old(recent) <= recent
    }

    /** Nothing has gone wrong since. */
    twostate predicate Faultless()
      reads this`faults
    {
      faults == old(faults)
    }

    /** Does the next thing that can go wrong go wrong? */
    method Fault() returns (fault: bool)
      modifies this`faults
      ensures faults == old(faults) + if fault then 1 else 0
    {
      fault := *;
      if fault {
        faults := faults + 1;
      }
    }

    ghost method Checkpoint()
      requires disk.WellFormed()
      modifies this`past, this`recent, this`origin, this`touched
      ensures AtCheckpoint()
      ensures past == old(past) + old(recent)
    {
      past := past + recent;
      recent, origin, touched := {disk}, disk, {};
    }

    ghost method Record(places: set<Path>, before: Disk)
      requires before in recent && OnlyAt(before, disk, places)
      requires forall d <- recent :: OnlyAt(origin, d, touched)
      modifies this`recent, this`touched
      ensures Valid()
      ensures recent == old(recent) + {disk} && touched == old(touched) + places
    {
      OnlyAtChains(origin, before, disk, touched, places);
      touched := touched + places;
      recent := recent + {disk};
    }

    method Create(p: Path) returns (made: Option<Inode>)
      requires Valid()
      modifies this
      ensures Valid() && Moved({p})
      ensures made.Some? ==>
                && made.value == |old(disk).files|
                && old(disk).Live(p).None?
                && disk == old(disk).Create(p, NoFault)
                && abandoned == old(abandoned)
      ensures made.None? && disk == old(disk) ==> abandoned == old(abandoned) && touched == old(touched)
      ensures Faultless() && old(disk).Live(p).None? ==> made.Some?
      ensures made.None? && disk != old(disk) ==>
                && old(disk).Live(p).None?
                && disk == old(disk).Create(p, ModeFault)
                && abandoned == old(abandoned) + {p}
    {
      CreateOnlyAt(disk, p, NoFault);
      CreateOnlyAt(disk, p, ModeFault);
      ghost var before := disk;
      made := None;
      if disk.Live(p).Some? {
        return;
      }
      var openFailed := Fault();
      if openFailed {
        return;
      }
      var modeFailed := Fault();
      if modeFailed {
        disk := disk.Create(p, ModeFault);
        abandoned := abandoned + {p};
      } else {
        made := Some(|disk.files|);
        disk := disk.Create(p, NoFault);
      }
      Record({p}, before);
    }

    method Write(i: Inode, data: Bytes) returns (ok: bool)
      requires Valid() && |origin.files| <= i < |disk.files|
      modifies this`disk, this`recent, this`faults
      ensures Valid() && Moved({})
      ensures exists written :: disk == old(disk).Write(i, written) && (ok ==> written == data)
      ensures Faultless() ==> ok
    {
      var written: Bytes := data;
      var fault := Fault();
      ok := !fault;
      if fault {
        written := *;
      }
      FillOnlyAt(origin, disk, touched, i, written);
      disk := disk.Write(i, written);
      recent := recent + {disk};
    }

    method SyncFile(i: Inode) returns (ok: bool)
      requires Valid() && |origin.files| <= i < |disk.files|
      modifies this`disk, this`recent, this`faults
      ensures Valid() && Moved({})
      ensures disk == if ok then old(disk).SyncFile(i) else old(disk)
      ensures Faultless() ==> ok
    {
      var fault := Fault();
      ok := !fault;
      FillOnlyAt(origin, disk, touched, i, []);
      if ok {
        disk := disk.SyncFile(i);
      }
      recent := recent + {disk};
    }

    method Rename(from: Path, to: Path, noReplace: bool) returns (ok: bool)
      requires Valid()
      modifies this`disk, this`recent, this`touched, this`faults
      ensures Valid() && Moved({from, to})
      ensures disk == if ok then old(disk).Rename(from, to) else old(disk)
      ensures !ok ==> touched == old(touched) && recent == old(recent)
      ensures ok && noReplace ==> old(disk).Live(to).None?
      ensures Faultless() && (noReplace ==> old(disk).Live(to).None?) ==> ok
    {
      RenameOnlyAt(disk, from, to);
      ghost var before := disk;
      var fault := Fault();
      ok := !fault;
      if noReplace && disk.Live(to).Some? {
        ok := false;
      }
      if ok {
        disk := disk.Rename(from, to);
        Record({from, to}, before);
      }
    }

    method Unlink(p: Path) returns (ok: bool)
      requires Valid()
      modifies this`disk, this`recent, this`touched, this`faults
      ensures Valid() && Moved({p})
      ensures disk == if ok then old(disk).Unlink(p) else old(disk)
      ensures !ok ==> touched == old(touched) && recent == old(recent)
      ensures Faultless() ==> ok
    {
      UnlinkOnlyAt(disk, p);
      ghost var before := disk;
      var fault := Fault();
      ok := !fault;
      if ok {
        disk := disk.Unlink(p);
        Record({p}, before);
      }
    }

    /** A platform without directory sync reports success and promises nothing. */
    method SyncDirectory(dir: Directory) returns (ok: bool)
      requires Valid()
      modifies this`disk, this`recent, this`touched, this`faults
      ensures Valid() && Moved({})
      ensures disk == if ok && dirSync then old(disk).SyncDirectory(dir) else old(disk)
      ensures forall p :: Calm(old(disk), disk, p)
      ensures Faultless() ==> ok
    {
      SyncDirectoryOnlyAt(disk, dir);
      ghost var before := disk;
      ok := true;
      if dirSync {
        var fault := Fault();
        ok := !fault;
        if ok {
          disk := disk.SyncDirectory(dir);
          Record({}, before);
        }
      }
    }

    /** Makes one directory and opens it; the opening may fail after the making. */
    method MakeDirectory(dir: Directory) returns (ok: bool)
      requires AtCheckpoint() && dir != [] && ParentOf(dir) in disk.dirs
      modifies this`disk, this`past, this`recent, this`origin, this`touched, this`faults
      ensures AtCheckpoint() && past == old(past) + old(recent)
      ensures disk == old(disk) || disk == old(disk).MakeDirectory(dir)
      ensures ok ==> disk == old(disk).MakeDirectory(dir)
      ensures old(faults) <= faults && (Faultless() ==> ok)
    {
      MakeDirectoryGrows(disk, dir);
      var unmade := Fault();
      if !unmade {
        disk := disk.MakeDirectory(dir);
      }
      Checkpoint();
      var unopened := Fault();
      ok := !unmade && !unopened;
    }

    /** Makes the missing directories on the way to `dir`, from the deepest one that exists downwards. */
    method MakeChain(dir: Directory) returns (ok: bool)
      requires AtCheckpoint()
      modifies this`disk, this`past, this`recent, this`origin, this`touched, this`faults
      ensures AtCheckpoint() && old(past) <= past && old(disk) in past + recent
      ensures Grown(old(disk), disk) && forall e <- disk.dirs - old(disk).dirs :: e <= dir
      ensures forall d <- past :: d in old(past) || Grown(old(disk), d)
      ensures ok ==> dir in disk.dirs
      ensures old(faults) <= faults && (Faultless() ==> ok)
    {
      var depth := |dir|;
      assert dir[..0] == [];
      while dir[..depth] !in disk.dirs
        invariant 0 <= depth <= |dir|
        decreases depth
      {
        depth := depth - 1;
      }
      ok := true;
      while ok && depth < |dir|
        invariant depth <= |dir| && (ok ==> dir[..depth] in disk.dirs)
        invariant AtCheckpoint() && old(past) <= past && old(disk) in past + recent
        invariant Grown(old(disk), disk) && forall e <- disk.dirs - old(disk).dirs :: e <= dir
        invariant forall d <- past :: d in old(past) || Grown(old(disk), d)
        invariant old(faults) <= faults && (Faultless() ==> ok)
      {
        ghost var before := disk;
        var next := dir[..depth + 1];
        assert ParentOf(next) == dir[..depth];
        MakeDirectoryGrows(disk, next);
        ok := MakeDirectory(next);
        if disk != before {
          GrownChains(old(disk), before, disk);
        }
        depth := depth + 1;
      }
      assert dir[..|dir|] == dir;
    }

    /** Makes every directory of `wanted` that is missing, shallower ones first. */
    method MakePrivateDirectories(wanted: set<Directory>) returns (ok: bool)
      requires AtCheckpoint()
      modifies this`disk, this`past, this`recent, this`origin, this`touched, this`faults
      ensures AtCheckpoint() && old(past) <= past && old(disk) in past + recent
      ensures Grown(old(disk), disk) && forall e <- disk.dirs - old(disk).dirs :: Leads(e, wanted)
      ensures forall d <- past :: d in old(past) || Grown(old(disk), d)
      ensures ok ==> wanted <= disk.dirs
      ensures old(faults) <= faults && (Faultless() ==> ok)
    {
      var rest := wanted;
      ok := true;
      while ok && rest != {}
        invariant rest <= wanted && AtCheckpoint()
        invariant old(past) <= past && old(disk) in past + recent
        invariant Grown(old(disk), disk) && forall e <- disk.dirs - old(disk).dirs :: Leads(e, wanted)
        invariant forall d <- past :: d in old(past) || Grown(old(disk), d)
        invariant ok ==> wanted - rest <= disk.dirs
        invariant old(faults) <= faults && (Faultless() ==> ok)
        decreases |rest|
      {
        ghost var before, earlier := disk, past;
        Shallowest(rest);
        var next :| next in rest && forall e <- rest :: |next| <= |e|;
        ok := MakeChain(next);
        GrownChains(old(disk), before, disk);
        forall d <- past
          ensures d in old(past) || Grown(old(disk), d)
        {
          if d !in earlier {
            GrownChains(old(disk), before, d);
          }
        }
        rest := rest - {next};
      }
    }
  }

  /** `e` is on the way to one of `wanted`. */
  predicate Leads(e: Directory, wanted: set<Directory>) {
    exists f <- wanted :: e <= f
  }

  lemma {:induction false} Shallowest(s: set<Directory>)
    requires s != {}
    ensures exists dir <- s :: forall e <- s :: |dir| <= |e|
    decreases |s|
  {
    var one :| one in s;
    if s != {one} {
      var rest := s - {one};
      assert rest != {};
      Shallowest(rest);
      var least :| least in rest && forall e <- rest :: |least| <= |e|;
      var dir := if |one| <= |least| then one else least;
      assert dir in s && forall e <- s :: |dir| <= |e|;
    } else {
      assert one in s && forall e <- s :: |one| <= |e|;
    }
  }
}
