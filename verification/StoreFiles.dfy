/** The staged files of one transaction and the directory handle that owns them. */
module StoreFiles {
  import opened Options
  import opened StoreDisk
  import opened StoreVolume

  datatype StoreFile = StoreFile(path: Path, inode: Inode, payload: Bytes, identified: bool,
                                 linked: bool, temporary: bool, closed: bool) {

    /** Cleanup would unlink the file. */
    predicate Owning() {
      linked && temporary && !closed
    }

    /** Complete and waiting at its name. */
    predicate InPlace(d: Disk) {
      && identified && !closed && linked && d.Live(path) == Some(inode)
      && inode < |d.files| && d.files[inode].data == payload
    }

    /** Nothing but the file itself is at its name. */
    predicate Removable(d: Disk) {
      identified && d.Live(path) in {None, Some(inode)}
    }

    predicate Owns(p: Path, i: Inode) {
      Owning() && path == p && inode == i
    }
  }

  function Fresh(p: Path, i: Inode, payload: Bytes): StoreFile {
    StoreFile(p, i, payload, true, true, true, false)
  }

  ghost predicate Owned(files: seq<StoreFile>, p: Path, i: Inode) {
    exists k :: 0 <= k < |files| && files[k].Owns(p, i)
  }

  ghost predicate NoOwner(files: seq<StoreFile>, p: Path) {
    forall k :: 0 <= k < |files| && files[k].Owning() ==> files[k].path != p
  }

  /** What became of name `p` since `first`: untouched, abandoned, or owned by a staged file. */
  ghost predicate Accounted(first: Disk, d: Disk, files: seq<StoreFile>, abandoned: set<Path>, p: Path) {
    || (d.Live(p) == first.Live(p) && p !in abandoned && (first.Live(p).Some? ==> !Owned(files, p, first.Live(p).value)))
    || (p in abandoned && d.Live(p).Some? && first.Live(p).None? && NoOwner(files, p))
    || (p !in abandoned && first.Live(p).None? && d.Live(p).Some? && Owned(files, p, d.Live(p).value))
  }

  class TransactionDirectory {
    const volume: Volume
    const dir: Directory
    var files: seq<StoreFile>

    constructor (volume: Volume, dir: Directory)
      ensures this.volume == volume && this.dir == dir && files == []
    {
      this.volume, this.dir, files := volume, dir, [];
    }

    ghost predicate Valid()
      reads this, volume
    {
      && volume.Valid()
      && forall k :: 0 <= k < |files| ==> files[k].inode < |volume.disk.files|
    }

    method Validate(k: nat) returns (ok: bool)
      requires Valid() && k < |files|
      modifies volume`faults
      ensures Valid() && old(volume.faults) <= volume.faults
      ensures ok ==> volume.disk.Live(files[k].path) == Some(files[k].inode)
                     && volume.disk.files[files[k].inode].data == files[k].payload
      ensures volume.Faultless() && files[k].InPlace(volume.disk) ==> ok
    {
      var f := files[k];
      if f.closed || !f.identified || !f.linked {
        return false;
      }
      var fault := volume.Fault();
      ok := !fault && volume.disk.Live(f.path) == Some(f.inode) && volume.disk.files[f.inode].data == f.payload;
    }

    /** `unlinked` says that the unlink call itself succeeded or found nothing to do. */
    method Remove(k: nat) returns (ok: bool, ghost unlinked: bool)
      requires Valid() && k < |files|
      modifies this`files, volume`disk, volume`recent, volume`touched, volume`faults
      ensures Valid() && volume.Moved({old(files)[k].path})
      ensures files == old(files)[k := old(files)[k].(linked := old(files)[k].linked && !ok)]
      ensures
        || (volume.disk == old(volume.disk) && volume.touched == old(volume.touched))
        || (old(files)[k].linked && !old(files)[k].closed
            && old(volume.disk).Live(files[k].path) == Some(files[k].inode)
            && volume.disk == old(volume.disk).Unlink(files[k].path))
      ensures ok ==> unlinked
      ensures unlinked ==> volume.disk.Live(files[k].path).None?
      ensures !unlinked && old(files)[k].linked && !old(files)[k].closed && old(files)[k].identified ==>
                volume.disk == old(volume.disk)
      ensures volume.Faultless() && old(files)[k].linked && !old(files)[k].closed && old(files)[k].Removable(old(volume.disk)) ==> ok
    {
      hide OnlyAt, Volume.Valid, Disk.WellFormed;
      var f := files[k];
      ok, unlinked := false, false;
      if f.closed || !f.linked || !f.identified {
        return;
      }
      var unseen := volume.Fault();
      if unseen {
        return;
      }
      if volume.disk.Live(f.path).None? {
        files := files[k := f.(linked := false)];
        return true, true;
      }
      if volume.disk.Live(f.path) != Some(f.inode) {
        return;
      }
      var removed := volume.Unlink(f.path);
      if !removed {
        return;
      }
      unlinked := true;
      var unconfirmed := volume.Fault();
      if unconfirmed {
        return;
      }
      files := files[k := f.(linked := false)];
      ok := true;
    }

    method CleanupFile(k: nat) returns (ok: bool, ghost unlinked: bool)
      requires Valid() && k < |files|
      modifies this`files, volume`disk, volume`recent, volume`touched, volume`faults
      ensures Valid() && volume.Moved({old(files)[k].path})
      ensures |files| == |old(files)| && files[k].closed && files[k].path == old(files)[k].path
      ensures forall j :: 0 <= j < |files| && j != k ==> files[j] == old(files)[j]
      ensures
        || (volume.disk == old(volume.disk) && volume.touched == old(volume.touched))
        || (old(files)[k].Owns(files[k].path, old(files)[k].inode)
            && old(volume.disk).Live(files[k].path) == Some(old(files)[k].inode)
            && volume.disk == old(volume.disk).Unlink(files[k].path))
      ensures ok && old(files)[k].Owning() ==> unlinked
      ensures unlinked ==> volume.disk.Live(files[k].path).None?
      ensures !unlinked && old(files)[k].identified ==> volume.disk == old(volume.disk)
      ensures volume.Faultless() && (old(files)[k].Owning() ==> old(files)[k].Removable(old(volume.disk))) ==> ok
    {
      hide OnlyAt, Volume.Valid, Disk.WellFormed;
      ok, unlinked := true, false;
      if files[k].closed {
        return;
      }
      if files[k].linked && files[k].temporary {
        ok, unlinked := Remove(k);
      }
      files := files[k := files[k].(closed := true)];
      var unclosed := volume.Fault();
      ok := ok && !unclosed;
    }

    /** Creates, fills, syncs and checks one temporary file. */
    method Stage(name: string, payload: Bytes) returns (ok: bool)
      requires Valid() && Path(dir, name) !in volume.abandoned
      modifies this`files, volume
      ensures Valid() && volume.Moved({Path(dir, name)})
      ensures old(volume.abandoned) <= volume.abandoned
      ensures ok ==>
                && old(volume.disk).Live(Path(dir, name)).None?
                && volume.disk == old(volume.disk).Put(Path(dir, name), payload)
                && files == old(files) + [Fresh(Path(dir, name), |old(volume.disk).files|, payload)]
                && volume.abandoned == old(volume.abandoned)
      ensures !ok ==> StageFailed(old(volume.disk), old(files), old(volume.abandoned), Path(dir, name))
      ensures volume.Faultless() && old(volume.disk).Live(Path(dir, name)).None? ==> ok
    {
      hide OnlyAt, Volume.Valid, Disk.WellFormed, StageFailed;
      var path := Path(dir, name);
      var refused := volume.Fault();
      if refused {
        NotCreated(volume.disk, files, volume.abandoned, path);
        return false;
      }
      var made := volume.Create(path);
      if made.None? {
        NotCreated(old(volume.disk), files, old(volume.abandoned), path);
        return false;
      }
      files := files + [Fresh(path, made.value, payload).(identified := false)];
      var unidentified := volume.Fault();
      if unidentified {
        CreatedOwned(old(volume.disk), old(files), path);
        return false;
      }
      files := files[|files| - 1 := Fresh(path, made.value, payload)];
      var interrupted := volume.Fault();
      if interrupted {
        CreatedOwned(old(volume.disk), old(files), path);
        return false;
      }
      ghost var created, staged := volume.disk, files;
      ghost var unlinked;
      ok, unlinked := Fill(|files| - 1);
      if ok {
        assert volume.disk.files == old(volume.disk).files + [File(payload, true)];
        assert volume.disk.names == created.names;
      } else {
        Unfilled(old(volume.disk), created, old(files), staged, old(volume.abandoned), path);
      }
    }

    lemma NotCreated(d: Disk, before: seq<StoreFile>, abandoned: set<Path>, path: Path)
      requires files == before && path !in abandoned
      requires
        || (volume.disk == d && volume.abandoned == abandoned)
        || (d.Live(path).None? && volume.disk == d.Create(path, ModeFault) && volume.abandoned == abandoned + {path})
      ensures StageFailed(d, before, abandoned, path)
    {
    }

    lemma CreatedOwned(d: Disk, before: seq<StoreFile>, path: Path)
      requires d.Live(path).None? && volume.disk == d.Create(path, NoFault)
      requires |files| == |before| + 1 && before == files[..|before|] && files[|before|].Owns(path, |d.files|)
      ensures StageFailed(d, before, volume.abandoned, path)
    {
    }

    lemma Unfilled(d: Disk, created: Disk, before: seq<StoreFile>, staged: seq<StoreFile>, abandoned: set<Path>, path: Path)
      requires d.Live(path).None? && created == d.Create(path, NoFault) && path !in abandoned
      requires |staged| == |before| + 1 == |files| && before == staged[..|before|]
      requires forall j :: 0 <= j < |before| ==> files[j] == staged[j]
      requires files[|before|].path == path && files[|before|].closed
      requires |volume.disk.files| == |created.files|
      requires forall i | 0 <= i < |created.files| && i != |d.files| :: volume.disk.files[i] == created.files[i]
      requires forall p | p != path :: volume.disk.At(p) == created.At(p)
      requires volume.abandoned == abandoned + if volume.disk.Live(path).Some? then {path} else {}
      ensures StageFailed(d, before, abandoned, path)
    {
    }

    /** A failed stage left the other names alone and its own name accounted for. */
    ghost predicate StageFailed(d: Disk, before: seq<StoreFile>, abandoned: set<Path>, path: Path)
      reads this, volume
    {
      && volume.disk.Extends(d)
      && (forall p | p != path :: volume.disk.At(p) == d.At(p))
      && before <= files && |files| <= |before| + 1
      && (forall k :: |before| <= k < |files| ==> files[k].path == path)
      && (d.Live(path).Some? ==> volume.disk.Live(path) == d.Live(path) && files == before)
      && volume.abandoned <= abandoned + {path}
      && (volume.abandoned != abandoned ==>
            volume.disk.Live(path).Some? && d.Live(path).None? && forall k :: |before| <= k < |files| ==> !files[k].Owning())
      && (volume.abandoned == abandoned && volume.disk.Live(path) != d.Live(path) ==>
            volume.disk.Live(path).Some? && |files| == |before| + 1
            && files[|before|].Owns(path, volume.disk.Live(path).value))
    }

    /**
     Writes, syncs and checks the newest file; any failure unlinks it again. A file whose
     unlink call did not succeed then is closed, so no later cleanup tries again.
     */
    method Fill(k: nat) returns (ok: bool, ghost unlinked: bool)
      requires Valid() && k < |files| && files[k] == Fresh(files[k].path, files[k].inode, files[k].payload)
      requires |volume.origin.files| <= files[k].inode
      requires volume.disk.Live(files[k].path) == Some(files[k].inode)
      modifies this`files, volume
      ensures Valid() && volume.Moved({old(files)[k].path})
      ensures |files| == |old(files)| && forall j :: 0 <= j < |files| && j != k ==> files[j] == old(files)[j]
      ensures files[k].path == old(files)[k].path
      ensures |volume.disk.files| == |old(volume.disk).files|
      ensures forall i | 0 <= i < |volume.disk.files| && i != old(files)[k].inode ::
                volume.disk.files[i] == old(volume.disk).files[i]
      ensures forall p | p != files[k].path :: volume.disk.At(p) == old(volume.disk).At(p)
      ensures volume.disk.Live(files[k].path) in {Some(old(files)[k].inode), None}
      ensures volume.disk.dirs == old(volume.disk).dirs && volume.disk.pending == old(volume.disk).pending
      ensures volume.abandoned == old(volume.abandoned) + if !ok && !unlinked then {files[k].path} else {}
      ensures !ok ==> (volume.disk.Live(files[k].path).Some? <==> !unlinked)
      ensures !ok ==> files[k].closed
      ensures volume.Faultless() ==> ok
      ensures ok ==> files == old(files) && volume.disk.names == old(volume.disk).names
                     && volume.disk.files[files[k].inode] == File(files[k].payload, true)
    {
      hide OnlyAt, Volume.Valid, Disk.WellFormed;
      ok := volume.Write(files[k].inode, files[k].payload);
      if ok {
        ok := volume.SyncFile(files[k].inode);
      }
      if ok {
        ok := Validate(k);
      }
      unlinked := false;
      if !ok {
        var cleaned;
        cleaned, unlinked := CleanupFile(k);
        if !unlinked {
          volume.abandoned := volume.abandoned + {files[k].path};
        }
      }
    }

    /** Renames a staged file; a failed check after the rename leaves the new name in place. */
    method Publish(k: nat, target: Path, noReplace: bool) returns (ok: bool)
      requires Valid() && k < |files|
      modifies this`files, volume`disk, volume`recent, volume`touched, volume`faults
      ensures Valid() && volume.Moved({old(files)[k].path, target})
      ensures
        || (!ok && files == old(files) && volume.disk == old(volume.disk)
            && volume.touched == old(volume.touched) && volume.recent == old(volume.recent))
        || (files == old(files)[k := old(files)[k].(path := target)] && files[k].Owning()
            && old(volume.disk).Live(old(files)[k].path) == Some(files[k].inode)
            && (noReplace ==> old(volume.disk).Live(target).None?)
            && volume.disk == old(volume.disk).Rename(old(files)[k].path, target))
      ensures volume.Faultless() && old(files)[k].temporary && old(files)[k].InPlace(old(volume.disk)) && old(files)[k].path != target ==>
                ok || (noReplace && old(volume.disk).Live(target).Some?)
    {
      hide OnlyAt, Volume.Valid, Disk.WellFormed;
      var f := files[k];
      if !f.Owning() {
        return false;
      }
      ok := Validate(k);
      if !ok {
        return false;
      }
      var stopped := volume.Fault();
      if stopped {
        return false;
      }
      ok := volume.Rename(f.path, target, noReplace);
      if !ok {
        return false;
      }
      files := files[k := f.(path := target)];
      ok := Validate(k);
    }

    /** Unlinks every staged file that still has a temporary name and closes all of them. */
    method Cleanup() returns (ok: bool)
      requires Valid()
      modifies this`files, volume`disk, volume`recent, volume`touched, volume`faults
      ensures Valid() && volume.Moved(set f <- old(files) | f.Owning() :: f.path)
      ensures volume.disk.files == old(volume.disk).files
      ensures volume.disk.dirs == old(volume.disk).dirs && volume.disk.pending == old(volume.disk).pending
      ensures old(files) == [] ==> volume.disk == old(volume.disk)
      ensures ok ==> forall k :: 0 <= k < |old(files)| && old(files)[k].Owning() ==> volume.disk.Live(old(files)[k].path).None?
      ensures forall p ::
                || volume.disk.At(p) == old(volume.disk).At(p)
                || (volume.disk.Live(p).None? && old(volume.disk).Live(p).Some?
                    && Owned(old(files), p, old(volume.disk).Live(p).value))
      ensures volume.Faultless() && (forall f <- old(files) :: f.Owning() ==> f.Removable(old(volume.disk))) ==> ok
    {
      hide OnlyAt, Volume.Valid, Disk.WellFormed;
      ok := true;
      var index := |files|;
      while index > 0
        invariant 0 <= index <= |files| == |old(files)|
        invariant Valid() && volume.Moved(set f <- old(files) | f.Owning() :: f.path)
        invariant volume.disk.files == old(volume.disk).files
        invariant volume.disk.dirs == old(volume.disk).dirs && volume.disk.pending == old(volume.disk).pending
        invariant files[..index] == old(files)[..index]
        invariant old(files) == [] ==> volume.disk == old(volume.disk)
        invariant forall p ::
                    || volume.disk.At(p) == old(volume.disk).At(p)
                    || (volume.disk.Live(p).None? && old(volume.disk).Live(p).Some?
                        && Owned(old(files), p, old(volume.disk).Live(p).value))
        invariant ok ==> forall k :: index <= k < |files| && old(files)[k].Owning() ==>
                                       volume.disk.Live(old(files)[k].path).None?
        invariant volume.Faultless() && (forall f <- old(files) :: f.Owning() ==> f.Removable(old(volume.disk))) ==> ok
      {
        index := index - 1;
        assert files[index] == old(files)[index];
        var removed, _ := CleanupFile(index);
        ok := ok && removed;
      }
      var unclosed := volume.Fault();
      ok := ok && !unclosed;
    }
  }
}
