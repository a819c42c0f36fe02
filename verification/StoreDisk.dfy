/**
 The directory model under the configuration transaction.

 Every path has the entry the running system sees (`live`) and the set of entries a
 power loss may leave there (`maybe`): each value the name has had since the last
 successful sync of its directory, chosen independently per name. File bytes are only
 certain after a crash once the file itself was synced.

 A directory is itself an entry of its parent. One that was made and whose parent was not
 synced since is `pending`: a power loss may drop it with everything below it.
 */
module StoreDisk {
  import opened Options

  newtype byte = x: int | 0 <= x < 256

  type Bytes = seq<byte>

  type Inode = nat

  /** The names that lead to a directory from the root, which is `[]` and is never lost. */
  type Directory = seq<string>

  datatype Path = Path(dir: Directory, name: string)

  function ParentOf(dir: Directory): Directory
    requires dir != []
  {
    dir[..|dir| - 1]
  }

  /** To get to `dir` one goes through `e`. */
  predicate OnTheWay(e: Directory, dir: Directory) {
    e <= dir
  }

  datatype Entry = Entry(live: Option<Inode>, maybe: set<Option<Inode>>)

  datatype File = File(data: Bytes, synced: bool)

  datatype CreateFault = NoFault | OpenFault | ModeFault

  datatype Disk = Disk(names: map<Path, Entry>, files: seq<File>, dirs: set<Directory>, pending: set<Directory>) {

    function At(p: Path): Entry {
      if p in names then names[p] else Entry(None, {None})
    }

    function Live(p: Path): Option<Inode> { At(p).live }

    ghost predicate WellFormed() {
      && (forall p <- names :: names[p].live in names[p].maybe)
      && (forall p <- names, v <- names[p].maybe :: v.Some? ==> v.value < |files|)
      && [] in dirs && (forall e <- dirs, f | OnTheWay(f, e) :: f in dirs)
      && pending <= dirs && [] !in pending
    }

    /** No crash drops `dir`. */
    ghost predicate Firm(dir: Directory) {
      forall e <- pending :: !(e <= dir)
    }

    /** The directories in `dir` are durable. */
    ghost predicate Settled(dir: Directory) {
      forall e <- pending :: e != [] && ParentOf(e) != dir
    }

    /** `dir` was made by somebody and its own entry is durable. */
    predicate Lasting(dir: Directory) {
      dir in dirs && dir !in pending
    }

    /** The same directories, none less certain. */
    ghost predicate SteadySince(earlier: Disk) {
      dirs == earlier.dirs && pending <= earlier.pending
    }

    /** The bytes a reader of `p` gets from the running system. */
    function Read(p: Path): Option<Bytes>
      requires WellFormed()
    {
      match Live(p)
      case None => None
      case Some(i) => Some(files[i].data)
    }

    /** Entry `v` certainly shows `content`, before and after a crash. */
    ghost predicate Holds(v: Option<Inode>, content: Option<Bytes>) {
      match v
      case None => content.None?
      case Some(i) => i < |files| && content.Some? && files[i] == File(content.value, true)
    }

    /** Whatever a crash leaves at `p`, its content is `content`. */
    ghost predicate Surely(p: Path, content: Option<Bytes>) {
      forall v <- At(p).maybe :: Holds(v, content)
    }

    /** Every file of `earlier` is still here with the same bytes. */
    ghost predicate Extends(earlier: Disk) {
      earlier.files <= files
    }

    function Enter(p: Path, v: Option<Inode>): Disk {
      this.(names := names[p := Entry(v, At(p).maybe + {v})])
    }

    /** Exclusive creation: an entry that exists makes the open itself fail. */
    function Create(p: Path, fault: CreateFault): Disk {
      if Live(p).Some? || fault.OpenFault? then this
      else this.(files := files + [File([], false)]).Enter(p, Some(|files|))
    }

    /** A created, filled and synced file. */
    function Put(p: Path, data: Bytes): Disk {
      this.(files := files + [File(data, true)]).Enter(p, Some(|files|))
    }

    function Write(i: Inode, data: Bytes): Disk
      requires i < |files|
    {
      this.(files := files[i := File(data, false)])
    }

    function SyncFile(i: Inode): Disk
      requires i < |files|
    {
      this.(files := files[i := File(files[i].data, true)])
    }

    function Rename(from: Path, to: Path): Disk {
      Enter(to, Live(from)).Enter(from, None)
    }

    function Unlink(p: Path): Disk { Enter(p, None) }

    /** Fixes the entries of `dir`: the files in it and the directories in it, but not `dir` itself. */
    function SyncDirectory(dir: Directory): Disk {
      this.(names := map p | p in names :: if p.dir == dir then Entry(names[p].live, {names[p].live}) else names[p],
            pending := NotEntriesOf(pending, dir))
    }

    /** An existing directory is taken as it is. */
    function MakeDirectory(dir: Directory): Disk {
      if dir in dirs then this else this.(dirs := dirs + {dir}, pending := pending + {dir})
    }
  }

  /** The directories of `pending` that are not entries of `dir`. */
  function NotEntriesOf(pending: set<Directory>, dir: Directory): set<Directory> {
    set e <- pending | e == [] || ParentOf(e) != dir
  }

  /** What stays pending when `dir` is synced on a platform that may not sync directories. */
  function Unsettled(dirSync: bool, pending: set<Directory>, dir: Directory): set<Directory> {
    if dirSync then NotEntriesOf(pending, dir) else pending
  }

  /** `later` shows what `d` shows at `p`, and no more uncertainly. */
  ghost predicate Calm(d: Disk, later: Disk, p: Path) {
    later.Live(p) == d.Live(p) && later.At(p).maybe <= d.At(p).maybe
  }

  /** From `d` to `later` no file was lost and only the names in `touched` moved. */
  ghost predicate OnlyNames(d: Disk, later: Disk, touched: set<Path>) {
    && later.WellFormed()
    && later.Extends(d)
    && forall p | p !in touched :: Calm(d, later, p)
  }

  /** Besides, no directory was made. */
  ghost predicate OnlyAt(d: Disk, later: Disk, touched: set<Path>) {
    OnlyNames(d, later, touched) && later.SteadySince(d)
  }

  /** From `found` to `d` nothing but directories were made, and none of them is durable yet. */
  ghost predicate Grown(found: Disk, d: Disk) {
    && d.WellFormed() && d.names == found.names && d.files == found.files
    && found.dirs <= d.dirs && d.pending == found.pending + (d.dirs - found.dirs)
  }

  lemma GrownChains(a: Disk, b: Disk, c: Disk)
    requires Grown(a, b) && Grown(b, c)
    ensures Grown(a, c)
  {
  }

  lemma MakeDirectoryGrows(d: Disk, dir: Directory)
    requires d.WellFormed() && dir != [] && ParentOf(dir) in d.dirs
    ensures Grown(d, d.MakeDirectory(dir))
  {
    forall f | OnTheWay(f, dir)
      ensures f in d.MakeDirectory(dir).dirs
    {
      assert f != dir ==> OnTheWay(f, ParentOf(dir));
    }
  }

  /** Everything above an existing directory exists. */
  lemma AboveExists(d: Disk, e: Directory, dir: Directory)
    requires d.WellFormed() && dir in d.dirs && e <= dir
    ensures e in d.dirs
  {
    assert OnTheWay(e, dir);
  }

  lemma OnlyAtChains(a: Disk, b: Disk, c: Disk, first: set<Path>, second: set<Path>)
    requires OnlyAt(a, b, first) && OnlyAt(b, c, second)
    ensures OnlyAt(a, c, first + second)
  {
  }

  lemma CalmKeepsContent(d: Disk, later: Disk, p: Path, content: Option<Bytes>)
    requires d.WellFormed() && later.WellFormed() && later.Extends(d) && Calm(d, later, p)
    ensures later.Read(p) == d.Read(p)
    ensures d.Surely(p, content) ==> later.Surely(p, content)
  {
  }

  /** The tree a restart may find after a crash in state `d`: some pending directories are gone with all below. */
  ghost predicate Survives(d: Disk, image: map<Path, Bytes>) {
    exists lost: set<Directory> :: SurvivesWithout(d, lost, image)
  }

  ghost predicate SurvivesWithout(d: Disk, lost: set<Directory>, image: map<Path, Bytes>) {
    lost <= d.pending && forall p: Path :: SurvivesAt(d, lost, p, image)
  }

  predicate Dropped(lost: set<Directory>, dir: Directory) {
    exists e <- lost :: e <= dir
  }

  ghost predicate SurvivesAt(d: Disk, lost: set<Directory>, p: Path, image: map<Path, Bytes>) {
    if Dropped(lost, p.dir) then p !in image else exists v <- d.At(p).maybe :: Shows(d, v, p, image)
  }

  ghost predicate Shows(d: Disk, v: Option<Inode>, p: Path, image: map<Path, Bytes>) {
    match v
    case None => p !in image
    case Some(i) => p in image && i < |d.files| && (d.files[i].synced ==> image[p] == d.files[i].data)
  }

  function Lookup(image: map<Path, Bytes>, p: Path): Option<Bytes> {
    if p in image then Some(image[p]) else None
  }

  function OtherBytes(b: Option<Bytes>): (r: Bytes)
    ensures b != Some(r)
  {
    if b == Some([]) then [0] else []
  }

  /** The bytes a crash may show for entry `v` when the reader hopes for `hope`. */
  function Shown(d: Disk, v: Option<Inode>, hope: Option<Bytes>): Bytes {
    if v.None? || v.value >= |d.files| then []
    else if d.files[v.value].synced then d.files[v.value].data
    else OtherBytes(hope)
  }

  /** Every tree a restart may find shows `content` at `p`. */
  ghost predicate Lasts(d: Disk, p: Path, content: Option<Bytes>) {
    forall image | Survives(d, image) :: Lookup(image, p) == content
  }

  /** A name lasts exactly when its entry is certain and, if it holds something, no directory above it is pending. */
  lemma SurelyMeansEveryCrash(d: Disk, p: Path, content: Option<Bytes>)
    requires d.WellFormed()
    ensures Lasts(d, p, content) <==> d.Surely(p, content) && (content.Some? ==> d.Firm(p.dir))
  {
    if d.Surely(p, content) && (content.Some? ==> d.Firm(p.dir)) {
      forall image | Survives(d, image)
        ensures Lookup(image, p) == content
      {
        CertainEverywhere(d, p, content, image);
      }
    } else if !d.Surely(p, content) {
      var bad :| bad in d.At(p).maybe && !d.Holds(bad, content);
      var image := WorstCrash(d, {}, p, bad, content);
      assert Survives(d, image) && !Dropped({}, p.dir);
    } else {
      var e :| e in d.pending && e <= p.dir;
      var image := WorstCrash(d, {e}, p, d.Live(p), content);
      assert SurvivesAt(d, {e}, p, image) && Dropped({e}, p.dir);
      assert Survives(d, image) && Lookup(image, p) == None;
    }
  }

  lemma CertainEverywhere(d: Disk, p: Path, content: Option<Bytes>, image: map<Path, Bytes>)
    requires d.WellFormed() && Survives(d, image)
    requires d.Surely(p, content) && (content.Some? ==> d.Firm(p.dir))
    ensures Lookup(image, p) == content
  {
    var lost :| SurvivesWithout(d, lost, image);
    assert SurvivesAt(d, lost, p, image);
    if !Dropped(lost, p.dir) {
      var v :| v in d.At(p).maybe && Shows(d, v, p, image);
      assert d.Holds(v, content);
    }
  }

  /** A crash that drops exactly `lost` and shows entry `pick` at `p`, disappointing `hope` where it can. */
  lemma WorstCrash(d: Disk, lost: set<Directory>, p: Path, pick: Option<Inode>, hope: Option<Bytes>)
    returns (image: map<Path, Bytes>)
    requires d.WellFormed() && lost <= d.pending && pick in d.At(p).maybe
    ensures SurvivesWithout(d, lost, image)
    ensures !Dropped(lost, p.dir) ==> Lookup(image, p) == if pick.None? then None else Some(Shown(d, pick, hope))
    ensures !Dropped(lost, p.dir) && !d.Holds(pick, hope) ==> Lookup(image, p) != hope
  {
    var entry := map q | q in d.names :: if q == p then pick else d.names[q].live;
    image := map q | q in d.names && entry[q].Some? && !Dropped(lost, q.dir) :: Shown(d, entry[q], hope);
    forall q: Path
      ensures SurvivesAt(d, lost, q, image)
    {
      var v := if q in d.names then entry[q] else None;
      assert v in d.At(q).maybe;
      assert !Dropped(lost, q.dir) ==> Shows(d, v, q, image);
    }
  }

  lemma CreateOnlyAt(d: Disk, p: Path, fault: CreateFault)
    requires d.WellFormed()
    ensures OnlyAt(d, d.Create(p, fault), {p})
  {
  }

  lemma UnlinkOnlyAt(d: Disk, p: Path)
    requires d.WellFormed()
    ensures OnlyAt(d, d.Unlink(p), {p})
  {
  }

  lemma RenameOnlyAt(d: Disk, from: Path, to: Path)
    requires d.WellFormed()
    ensures OnlyAt(d, d.Rename(from, to), {from, to})
  {
  }

  /** A synced file moved to a name whose directory is then synced survives every crash. */
  lemma RenamedAndSynced(d: Disk, from: Path, to: Path, i: Inode, data: Bytes)
    requires d.WellFormed() && from != to
    requires d.Live(from) == Some(i) && d.files[i] == File(data, true)
    ensures d.Rename(from, to).WellFormed()
    ensures d.Rename(from, to).Read(to) == Some(data)
    ensures d.Rename(from, to).SyncDirectory(to.dir).At(to) == Entry(Some(i), {Some(i)})
    ensures d.Rename(from, to).SyncDirectory(to.dir).Surely(to, Some(data))
  {
  }

  lemma SyncedName(d: Disk, p: Path)
    requires d.WellFormed()
    ensures d.SyncDirectory(p.dir).At(p) == Entry(d.Live(p), {d.Live(p)})
  {
  }

  lemma SyncSettles(d: Disk, dir: Directory)
    requires d.WellFormed()
    ensures d.SyncDirectory(dir).Settled(dir)
  {
  }

  lemma SyncDirectoryOnlyAt(d: Disk, dir: Directory)
    requires d.WellFormed()
    ensures OnlyAt(d, d.SyncDirectory(dir), {})
  {
  }

  /** Filling a file created after `first` disturbs nothing `first` had. */
  lemma FillOnlyAt(first: Disk, d: Disk, touched: set<Path>, i: Inode, data: Bytes)
    requires OnlyAt(first, d, touched)
    requires |first.files| <= i < |d.files|
    ensures OnlyAt(first, d.Write(i, data), touched)
    ensures OnlyAt(first, d.SyncFile(i), touched)
  {
  }
}
