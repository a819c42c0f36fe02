/**
 The locked runtime root: request records shared by Prepare, Cleanup and the janitor,
 interleaved at the granularity of the table lock and of each record's lock.
 */
module RuntimeRoot {
  import opened Options

  type Id = string

  type RecordId = nat

  type Identity = nat

  type Thread = nat

  datatype RecordState = Active | CleanupPending | Quarantined | Removed

  function Rank(s: RecordState): nat {
    match s
    case Active => 0
    case CleanupPending => 1
    case Quarantined => 2
    case Removed => 3
  }

  datatype Record = Record(id: Id, state: RecordState, generation: nat, identity: Identity, holder: Option<Thread>)

  /** Names in the root directory: the two closed namespaces, and everything else. */
  datatype EntryName = Request(id: Id) | Quarantine(id: Id) | Other(name: string)

  datatype Entry = Directory(identity: Identity) | NoDirectory

  /** What a caller holds: any copy, fresh, stale or forged. */
  datatype Handle = Handle(id: Id, record: Option<RecordId>, generation: nat, here: bool)

  datatype Phase =
    | Locked(record: RecordId, id: Id)
    | Quarantining(record: RecordId)
    | Removing(record: RecordId)
    | Retiring(record: RecordId, id: Id)
    | Sweeping(name: EntryName, found: Option<RecordId>)

  datatype State = State(records: seq<Record>, table: map<Id, RecordId>, generation: nat,
                         names: map<EntryName, Entry>, nextIdentity: Identity,
                         tableHolder: Option<Thread>, threads: map<Thread, Phase>)

  datatype Step =
    | Prepare(id: Id, outcome: PrepareOutcome)
    | Lock(t: Thread, handle: Handle)
    | BeginCleanup(t: Thread)
    | QuarantineRecorded(t: Thread, renamed: bool, checked: bool)
    | RemoveRecorded(t: Thread, ok: bool)
    | Retire(t: Thread)
    | LockStale(t: Thread, name: EntryName)
    | Sweep(t: Thread, ok: bool)

  /** A preparation that fails after creating the directory may be unable to remove it. */
  datatype PrepareOutcome = Made | FailedClean | FailedLeaving

  predicate ValidId(id: Id) {
    8 <= |id| <= 80 && forall k :: 0 <= k < |id| ==> IdChar(id[k])
  }

  predicate IdChar(c: char) {
    'a' <= c <= 'z' || 'A' <= c <= 'Z' || '0' <= c <= '9' || c == '_' || c == '-'
  }

  function TableAt(s: State, id: Id): Option<RecordId> {
    if id in s.table then Some(s.table[id]) else None
  }

  function SetState(s: State, r: RecordId, state: RecordState): State
    requires r < |s.records|
  {
    s.(records := s.records[r := s.records[r].(state := state)])
  }

  function SetHolder(s: State, r: RecordId, holder: Option<Thread>): State
    requires r < |s.records|
  {
    s.(records := s.records[r := s.records[r].(holder := holder)])
  }

  // ---- Prepare ----

  predicate PrepareRefused(s: State, id: Id) {
    !ValidId(id) || id in s.table || Quarantine(id) in s.names || Request(id) in s.names
  }

  function AfterPrepare(s: State, id: Id, outcome: PrepareOutcome): State {
    if PrepareRefused(s, id) || outcome.FailedClean? then s
    else
      var made := s.(names := s.names[Request(id) := Directory(s.nextIdentity)], nextIdentity := s.nextIdentity + 1);
      if outcome.FailedLeaving? then made
      else made.(generation := s.generation + 1,
                 records := s.records + [Record(id, Active, s.generation + 1, s.nextIdentity, None)],
                 table := s.table[id := |s.records|])
  }

  // ---- Cleanup ----

  /** The checks that find and lock the record of a handle; a retired handle is let through once its id is free. */
  predicate LockAccepts(s: State, h: Handle) {
    && ValidId(h.id) && h.here && h.record.Some? && h.record.value < |s.records|
    && h.generation != 0 && s.records[h.record.value].generation == h.generation
    && (TableAt(s, h.id) == h.record
        || (TableAt(s, h.id).None? && s.records[h.record.value].state.Removed?))
  }

  // ---- the janitor ----

  predicate Live(s: State, name: EntryName, r: RecordId)
    requires r < |s.records|
  {
    name.Request? && s.records[r].state.Active?
  }

  /** May the janitor remove what `name` shows? */
  predicate SweepAccepts(s: State, name: EntryName, record: Option<RecordId>)
    requires record.Some? ==> record.value < |s.records|
  {
    && name in s.names && s.names[name].Directory?
    && match record
       case None => true
       case Some(r) =>
         s.names[name].identity == s.records[r].identity
         && (s.records[r].state.CleanupPending? || s.records[r].state.Quarantined?)
  }

  predicate InNamespace(name: EntryName) {
    (name.Request? || name.Quarantine?) && ValidId(name.id)
  }

  ghost predicate Enabled(s: State, step: Step) {
    match step
    case Prepare(_, _) => s.tableHolder.None?
    case Lock(t, h) =>
      && s.tableHolder.None? && t !in s.threads
      && (LockAccepts(s, h) ==> s.records[h.record.value].holder.None?)
    case BeginCleanup(t) => t in s.threads && s.threads[t].Locked? && s.threads[t].record < |s.records|
    case QuarantineRecorded(t, _, _) => t in s.threads && s.threads[t].Quarantining? && s.threads[t].record < |s.records|
    case RemoveRecorded(t, _) => t in s.threads && s.threads[t].Removing? && s.threads[t].record < |s.records|
    case Retire(t) =>
      && t in s.threads && s.threads[t].Retiring? && s.tableHolder.None? && s.threads[t].record < |s.records|
      && s.records[s.threads[t].record].holder.None?
    case LockStale(t, name) =>
      && InNamespace(name) && s.tableHolder.None? && t !in s.threads
      && (name.id in s.table ==> s.table[name.id] < |s.records| && s.records[s.table[name.id]].holder.None?)
    case Sweep(t, _) =>
      && t in s.threads && s.threads[t].Sweeping? && InNamespace(s.threads[t].name)
      && (s.threads[t].found.Some? ==> s.threads[t].found.value < |s.records|)
  }

  function AfterLock(s: State, t: Thread, h: Handle): State {
    if !LockAccepts(s, h) then s
    else SetHolder(s, h.record.value, Some(t)).(threads := s.threads[t := Locked(h.record.value, h.id)])
  }

  function Unlock(s: State, t: Thread, r: RecordId): State
    requires r < |s.records|
  {
    SetHolder(s, r, None).(threads := s.threads - {t})
  }

  function AfterBegin(s: State, t: Thread): State
    requires t in s.threads && s.threads[t].Locked? && s.threads[t].record < |s.records|
  {
    var r := s.threads[t].record;
    match s.records[r].state
    case Removed => Unlock(s, t, r)
    case Quarantined => s.(threads := s.threads[t := Removing(r)])
    case _ => SetState(s, r, CleanupPending).(threads := s.threads[t := Quarantining(r)])
  }

  /** Where the recorded directory is, for a search that prefers the request name. */
  ghost function FindName(s: State, r: RecordId): Option<EntryName>
    requires r < |s.records|
  {
    var shown := Directory(s.records[r].identity);
    var request := Request(s.records[r].id);
    if request in s.names && s.names[request] == shown then Some(request)
    else if exists name <- s.names :: s.names[name] == shown then
      Some(FirstName(s, shown))
    else None
  }

  ghost function FirstName(s: State, shown: Entry): (name: EntryName)
    requires exists name <- s.names :: s.names[name] == shown
    ensures name in s.names && s.names[name] == shown
  {
    var name :| name in s.names && s.names[name] == shown;
    name
  }

  /** Renames the recorded directory into quarantine; a failed check after the rename keeps the new state. */
  ghost function AfterQuarantine(s: State, t: Thread, renamed: bool, checked: bool): State
    requires t in s.threads && s.threads[t].Quarantining? && s.threads[t].record < |s.records|
  {
    var r := s.threads[t].record;
    var source := FindName(s, r);
    var target := Quarantine(s.records[r].id);
    if !renamed || source.None? || target in s.names then Unlock(s, t, r)
    else
      var moved := SetState(s, r, Quarantined).(names := (s.names - {source.value})[target := s.names[source.value]]);
      if checked then moved.(threads := s.threads[t := Removing(r)]) else Unlock(moved, t, r)
  }

  function AfterRemove(s: State, t: Thread, ok: bool): State
    requires t in s.threads && s.threads[t].Removing? && s.threads[t].record < |s.records|
  {
    var r := s.threads[t].record;
    var name := Quarantine(s.records[r].id);
    if !ok || name !in s.names || s.names[name] != Directory(s.records[r].identity) then Unlock(s, t, r)
    else
      Unlock(SetState(s, r, Removed), t, r).(names := s.names - {name}, threads := s.threads[t := Retiring(r, s.records[r].id)])
  }

  function AfterRetire(s: State, t: Thread): State
    requires t in s.threads && s.threads[t].Retiring? && s.threads[t].record < |s.records|
  {
    var r, id := s.threads[t].record, s.threads[t].id;
    var done := s.(threads := s.threads - {t});
    if TableAt(s, id) != Some(r) || !s.records[r].state.Removed? then done
    else done.(table := s.table - {id})
  }

  function AfterLockStale(s: State, t: Thread, name: EntryName): State
    requires InNamespace(name) && (name.id in s.table ==> s.table[name.id] < |s.records|)
  {
    var record := TableAt(s, name.id);
    if record.Some? && Live(s, name, record.value) then s
    else
      var held := if record.Some? then SetHolder(s, record.value, Some(t)) else s;
      held.(tableHolder := Some(t), threads := s.threads[t := Sweeping(name, record)])
  }

  function AfterSweep(s: State, t: Thread, ok: bool): State
    requires t in s.threads && s.threads[t].Sweeping? && InNamespace(s.threads[t].name)
    requires s.threads[t].found.Some? ==> s.threads[t].found.value < |s.records|
  {
    var name, record := s.threads[t].name, s.threads[t].found;
    var swept :=
      if !ok || !SweepAccepts(s, name, record) then s
      else if record.None? then s.(names := s.names - {name})
      else
        SetState(s, record.value, Removed).(names := s.names - {name},
          table := if TableAt(s, name.id) == record then s.table - {name.id} else s.table);
    (if record.Some? then SetHolder(swept, record.value, None) else swept)
      .(tableHolder := None, threads := s.threads - {t})
  }

  ghost function Next(s: State, step: Step): State
    requires Enabled(s, step)
  {
    match step
    case Prepare(id, outcome) => AfterPrepare(s, id, outcome)
    case Lock(t, h) => AfterLock(s, t, h)
    case BeginCleanup(t) => AfterBegin(s, t)
    case QuarantineRecorded(t, renamed, checked) => AfterQuarantine(s, t, renamed, checked)
    case RemoveRecorded(t, ok) => AfterRemove(s, t, ok)
    case Retire(t) => AfterRetire(s, t)
    case LockStale(t, name) => AfterLockStale(s, t, name)
    case Sweep(t, ok) => AfterSweep(s, t, ok)
  }

  // ---- what every reachable state satisfies ----

  function Initial(names: map<EntryName, Entry>, next: Identity): State {
    State([], map[], 0, names, next, None, map[])
  }

  /** Where the directory of a record must be. */
  function Place(r: Record): Option<EntryName> {
    match r.state
    case Removed => None
    case Quarantined => Some(Quarantine(r.id))
    case _ => Some(Request(r.id))
  }

  ghost predicate Tabled(s: State) {
    && (forall id <- s.table :: s.table[id] < |s.records| && s.records[s.table[id]].id == id && ValidId(id))
    && (forall r | 0 <= r < |s.records| && !s.records[r].state.Removed? :: TableAt(s, s.records[r].id) == Some(r))
  }

  /** Each directory is at one name; a record's directory is where its state says, and nowhere once removed. */
  ghost predicate Placed(s: State) {
    && (forall m <- s.names, n <- s.names :: s.names[m].Directory? && s.names[m] == s.names[n] ==> m == n)
    && (forall n <- s.names :: s.names[n].Directory? ==> s.names[n].identity < s.nextIdentity)
    && (forall r | 0 <= r < |s.records| :: s.records[r].identity < s.nextIdentity)
    && (forall r, q | 0 <= r < q < |s.records| :: s.records[r].identity != s.records[q].identity)
    && (forall r | 0 <= r < |s.records| ::
          match Place(s.records[r])
          case Some(name) => name in s.names && s.names[name] == Directory(s.records[r].identity)
          case None => Directory(s.records[r].identity) !in s.names.Values)
  }

  ghost predicate Numbered(s: State) {
    && (forall r | 0 <= r < |s.records| :: 0 < s.records[r].generation <= s.generation)
    && (forall r, q | 0 <= r < q < |s.records| :: s.records[r].generation < s.records[q].generation)
  }

  /** The record a call has locked. */
  function LockedRecord(s: State, t: Thread): Option<RecordId> {
    if t !in s.threads then None
    else match s.threads[t]
      case Locked(r, _) => Some(r)
      case Quarantining(r) => Some(r)
      case Removing(r) => Some(r)
      case Retiring(_, _) => None
      case Sweeping(_, found) => found
  }

  /** What a call has locked it holds, and its phase agrees with the state of its record. */
  ghost predicate CallAgrees(s: State, t: Thread) {
    && (LockedRecord(s, t).Some? ==>
          LockedRecord(s, t).value < |s.records| && s.records[LockedRecord(s, t).value].holder == Some(t))
    && (t in s.threads ==>
          match s.threads[t]
          case Locked(_, _) => true
          case Quarantining(r) => r < |s.records| && s.records[r].state.CleanupPending?
          case Removing(r) => r < |s.records| && s.records[r].state.Quarantined?
          case Retiring(r, id) => r < |s.records| && s.records[r].id == id
          case Sweeping(name, found) =>
            && s.tableHolder == Some(t) && InNamespace(name) && found == TableAt(s, name.id)
            && (found.Some? ==> found.value < |s.records| && !Live(s, name, found.value)))
  }

  ghost predicate LocksAgree(s: State) {
    forall t: Thread :: CallAgrees(s, t)
  }

  ghost predicate Inv(s: State) {
    Tabled(s) && Placed(s) && Numbered(s) && LocksAgree(s)
  }

  lemma InitialInv(names: map<EntryName, Entry>, next: Identity)
    requires forall m <- names, n <- names :: names[m].Directory? && names[m] == names[n] ==> m == n
    requires forall n <- names :: names[n].Directory? ==> names[n].identity < next
    ensures Inv(Initial(names, next))
  {
  }

  /** Nothing but lock holders and calls differ. */
  ghost predicate SameStore(s: State, s': State) {
    && |s'.records| == |s.records| && s'.table == s.table && s'.names == s.names
    && s'.generation == s.generation && s'.nextIdentity == s.nextIdentity
    && forall r | 0 <= r < |s.records| :: s'.records[r].(holder := None) == s.records[r].(holder := None)
  }

  ghost predicate Stored(s: State) {
    Tabled(s) && Placed(s) && Numbered(s)
  }

  lemma SameStoreKeeps(s: State, s': State)
    requires Stored(s) && SameStore(s, s')
    ensures Stored(s')
  {
    forall r | 0 <= r < |s.records|
      ensures s'.records[r].id == s.records[r].id && s'.records[r].state == s.records[r].state
      ensures s'.records[r].identity == s.records[r].identity && s'.records[r].generation == s.records[r].generation
    {
      assert s'.records[r].(holder := None) == s.records[r].(holder := None);
    }
  }

  // what each step does to the store

  lemma PrepareStored(s: State, id: Id, outcome: PrepareOutcome)
    requires Stored(s)
    ensures Stored(AfterPrepare(s, id, outcome))
  {
    hide Tabled, Placed, Numbered;
    if AfterPrepare(s, id, outcome) != s {
      PrepareTabled(s, id, outcome);
      PreparePlaced(s, id, outcome);
      PrepareNumbered(s, id, outcome);
    }
  }

  lemma PrepareTabled(s: State, id: Id, outcome: PrepareOutcome)
    requires Tabled(s)
    ensures Tabled(AfterPrepare(s, id, outcome))
  {
  }

  lemma PrepareNumbered(s: State, id: Id, outcome: PrepareOutcome)
    requires Numbered(s)
    ensures Numbered(AfterPrepare(s, id, outcome))
  {
  }

  lemma PreparePlaced(s: State, id: Id, outcome: PrepareOutcome)
    requires Placed(s) && AfterPrepare(s, id, outcome) != s
    ensures Placed(AfterPrepare(s, id, outcome))
  {
    var s' := AfterPrepare(s, id, outcome);
    forall r | 0 <= r < |s'.records|
      ensures match Place(s'.records[r])
              case Some(name) => name in s'.names && s'.names[name] == Directory(s'.records[r].identity)
              case None => Directory(s'.records[r].identity) !in s'.names.Values
    {
    }
  }

  /** A record moves on to a later state and its directory, if it moves or goes, with it. */
  ghost predicate Advanced(s: State, s': State, r: RecordId) {
    && r < |s.records| == |s'.records| && s'.generation == s.generation && s'.nextIdentity == s.nextIdentity
    && (forall q | 0 <= q < |s.records| && q != r :: s'.records[q] == s.records[q])
    && s'.records[r] == s.records[r].(state := s'.records[r].state, holder := s'.records[r].holder)
  }

  lemma AdvancedNumbered(s: State, s': State, r: RecordId)
    requires Numbered(s) && Advanced(s, s', r)
    ensures Numbered(s')
  {
  }

  /** The table may drop the record only when it is removed. */
  lemma AdvancedTabled(s: State, s': State, r: RecordId)
    requires Tabled(s) && Advanced(s, s', r)
    requires !s.records[r].state.Removed? || s'.records[r].state.Removed?
    requires s'.table == s.table || (s'.records[r].state.Removed? && TableAt(s, s.records[r].id) == Some(r)
                                     && s'.table == s.table - {s.records[r].id})
    ensures Tabled(s')
  {
  }

  /** Its directory stays, moves from the request to the quarantine name, or goes. */
  lemma AdvancedPlaced(s: State, s': State, r: RecordId)
    requires Tabled(s) && Placed(s) && Advanced(s, s', r) && !s.records[r].state.Removed?
    requires
      || (s'.names == s.names && Place(s'.records[r]) == Place(s.records[r]))
      || (Place(s.records[r]).value.Request? && s'.records[r].state.Quarantined?
          && Quarantine(s.records[r].id) !in s.names
          && s'.names == (s.names - {Request(s.records[r].id)})[Quarantine(s.records[r].id) := Directory(s.records[r].identity)])
      || (s'.records[r].state.Removed? && s'.names == s.names - {Place(s.records[r]).value})
    ensures Placed(s')
  {
    forall q | 0 <= q < |s'.records|
      ensures match Place(s'.records[q])
              case Some(name) => name in s'.names && s'.names[name] == Directory(s'.records[q].identity)
              case None => Directory(s'.records[q].identity) !in s'.names.Values
    {
      if q != r && !s.records[q].state.Removed? {
        assert s.records[q].id != s.records[r].id;
      }
    }
  }

  /** The recorded directory of a call that quarantines it is at the request name. */
  lemma FindsRequest(s: State, r: RecordId)
    requires Placed(s) && r < |s.records| && s.records[r].state.CleanupPending?
    ensures FindName(s, r) == Some(Request(s.records[r].id))
  {
  }

  lemma QuarantineStored(s: State, t: Thread, renamed: bool, checked: bool)
    requires Stored(s) && LocksAgree(s) && Enabled(s, QuarantineRecorded(t, renamed, checked))
    ensures Stored(AfterQuarantine(s, t, renamed, checked))
  {
    hide Tabled, Placed, Numbered;
    assert CallAgrees(s, t);
    var s', r := AfterQuarantine(s, t, renamed, checked), s.threads[t].record;
    FindsRequest(s, r);
    if s'.names == s.names {
      SameStoreKeeps(s, s');
    } else {
      RecordPlaced(s, r);
      AdvancedNumbered(s, s', r);
      AdvancedTabled(s, s', r);
      AdvancedPlaced(s, s', r);
    }
  }

  lemma RecordPlaced(s: State, r: RecordId)
    requires Placed(s) && r < |s.records| && !s.records[r].state.Removed?
    ensures Place(s.records[r]).value in s.names && s.names[Place(s.records[r]).value] == Directory(s.records[r].identity)
    ensures forall n <- s.names :: s.names[n] == Directory(s.records[r].identity) ==> n == Place(s.records[r]).value
  {
  }

  lemma BeginStored(s: State, t: Thread)
    requires Stored(s) && Enabled(s, BeginCleanup(t))
    ensures Stored(AfterBegin(s, t))
  {
    hide Tabled, Placed, Numbered;
    var s', r := AfterBegin(s, t), s.threads[t].record;
    if s.records[r].state.Active? || s.records[r].state.CleanupPending? {
      AdvancedNumbered(s, s', r);
      AdvancedTabled(s, s', r);
      AdvancedPlaced(s, s', r);
    } else {
      SameStoreKeeps(s, s');
    }
  }

  lemma RemoveStored(s: State, t: Thread, ok: bool)
    requires Stored(s) && LocksAgree(s) && Enabled(s, RemoveRecorded(t, ok))
    ensures Stored(AfterRemove(s, t, ok))
  {
    hide Tabled, Placed, Numbered;
    assert CallAgrees(s, t);
    var s', r := AfterRemove(s, t, ok), s.threads[t].record;
    if s'.names == s.names {
      SameStoreKeeps(s, s');
    } else {
      AdvancedNumbered(s, s', r);
      AdvancedTabled(s, s', r);
      AdvancedPlaced(s, s', r);
    }
  }

  lemma RetireStored(s: State, t: Thread)
    requires Stored(s) && LocksAgree(s) && Enabled(s, Retire(t))
    ensures Stored(AfterRetire(s, t))
  {
    hide Tabled, Placed, Numbered;
    assert CallAgrees(s, t);
    var s', r := AfterRetire(s, t), s.threads[t].record;
    if s'.table == s.table {
      SameStoreKeeps(s, s');
    } else {
      AdvancedNumbered(s, s', r);
      AdvancedTabled(s, s', r);
      SameStoreKeeps(s, s'.(table := s.table));
      PlacedIgnoresTable(s'.(table := s.table), s');
    }
  }

  lemma PlacedIgnoresTable(s: State, s': State)
    requires Placed(s) && s' == s.(table := s'.table)
    ensures Placed(s')
  {
  }

  /** A directory no record owns may go. */
  lemma StrayRemoval(s: State, s': State, name: EntryName)
    requires Stored(s) && name in s.names
    requires forall r | 0 <= r < |s.records| :: Place(s.records[r]) != Some(name)
    requires s' == s.(names := s.names - {name}, threads := s'.threads, tableHolder := s'.tableHolder)
    ensures Stored(s')
  {
  }

  /** A closed name whose id is not in the table belongs to no record. */
  lemma UntabledIsStray(s: State, name: EntryName)
    requires Tabled(s) && InNamespace(name) && name.id !in s.table
    ensures forall r | 0 <= r < |s.records| :: Place(s.records[r]) != Some(name)
  {
  }

  lemma SweepStored(s: State, t: Thread, ok: bool)
    requires Stored(s) && LocksAgree(s) && Enabled(s, Sweep(t, ok))
    ensures Stored(AfterSweep(s, t, ok))
  {
    hide Tabled, Placed, Numbered;
    assert CallAgrees(s, t);
    var s' := AfterSweep(s, t, ok);
    var name, found := s.threads[t].name, s.threads[t].found;
    if !ok || !SweepAccepts(s, name, found) {
      SameStoreKeeps(s, s');
    } else if found.None? {
      UntabledIsStray(s, name);
      StrayRemoval(s, s', name);
    } else {
      RecordPlaced(s, found.value);
      TabledId(s, name.id);
      AdvancedNumbered(s, s', found.value);
      AdvancedTabled(s, s', found.value);
      AdvancedPlaced(s, s', found.value);
    }
  }

  lemma TabledId(s: State, id: Id)
    requires Tabled(s) && id in s.table
    ensures s.table[id] < |s.records| && s.records[s.table[id]].id == id
  {
  }

  lemma StepStored(s: State, step: Step)
    requires Stored(s) && LocksAgree(s) && Enabled(s, step)
    ensures Stored(Next(s, step))
  {
    hide Stored, LocksAgree;
    match step
    case Prepare(id, outcome) => PrepareStored(s, id, outcome);
    case Lock(t, h) => SameStoreKeeps(s, AfterLock(s, t, h));
    case BeginCleanup(t) => BeginStored(s, t);
    case QuarantineRecorded(t, renamed, checked) => QuarantineStored(s, t, renamed, checked);
    case RemoveRecorded(t, ok) => RemoveStored(s, t, ok);
    case Retire(t) => RetireStored(s, t);
    case LockStale(t, name) => SameStoreKeeps(s, AfterLockStale(s, t, name));
    case Sweep(t, ok) => SweepStored(s, t, ok);
  }

  // what each step does to the calls

  /** A step of call `t` that changes no record another call has locked disturbs no other call. */
  lemma OthersAgree(s: State, s': State, t: Thread, own: Option<RecordId>)
    requires LocksAgree(s) && CallAgrees(s', t)
    requires forall u | u != t :: (u in s.threads <==> u in s'.threads) && (u in s.threads ==> s'.threads[u] == s.threads[u])
    requires |s.records| <= |s'.records|
    requires forall q | 0 <= q < |s.records| :: s'.records[q].id == s.records[q].id && (own != Some(q) ==> s'.records[q] == s.records[q])
    requires own.Some? ==> own.value < |s.records| && s.records[own.value].holder in {None, Some(t)}
    requires s.tableHolder in {None, Some(t)} || (s'.tableHolder == s.tableHolder && s'.table == s.table)
    ensures LocksAgree(s')
  {
    forall u: Thread | u != t
      ensures CallAgrees(s', u)
    {
      assert CallAgrees(s, u);
    }
  }

  lemma StepLocks(s: State, step: Step)
    requires Tabled(s) && LocksAgree(s) && Enabled(s, step)
    ensures LocksAgree(Next(s, step))
  {
    hide LocksAgree, Tabled;
    var s' := Next(s, step);
    match step
    case Prepare(id, outcome) => PrepareLocks(s, id, outcome);
    case Lock(t, h) => LockLocks(s, t, h);
    case LockStale(t, name) => LockStaleLocks(s, t, name);
    case Sweep(t, ok) => SweepLocks(s, t, ok);
    case _ => CleanupLocks(s, step);
  }

  lemma PrepareLocks(s: State, id: Id, outcome: PrepareOutcome)
    requires LocksAgree(s) && s.tableHolder.None?
    ensures LocksAgree(AfterPrepare(s, id, outcome))
  {
    var s' := AfterPrepare(s, id, outcome);
    forall u: Thread
      ensures CallAgrees(s', u)
    {
      assert CallAgrees(s, u);
    }
  }

  lemma LockLocks(s: State, t: Thread, h: Handle)
    requires LocksAgree(s) && Enabled(s, Lock(t, h))
    ensures LocksAgree(AfterLock(s, t, h))
  {
    hide LocksAgree;
    if LockAccepts(s, h) {
      OthersAgree(s, AfterLock(s, t, h), t, h.record);
    }
  }

  lemma LockStaleLocks(s: State, t: Thread, name: EntryName)
    requires LocksAgree(s) && Enabled(s, LockStale(t, name))
    ensures LocksAgree(AfterLockStale(s, t, name))
  {
    hide LocksAgree;
    if AfterLockStale(s, t, name) != s {
      OthersAgree(s, AfterLockStale(s, t, name), t, TableAt(s, name.id));
    }
  }

  lemma SweepLocks(s: State, t: Thread, ok: bool)
    requires LocksAgree(s) && Enabled(s, Sweep(t, ok))
    ensures LocksAgree(AfterSweep(s, t, ok))
  {
    assert CallAgrees(s, t);
    hide LocksAgree;
    OthersAgree(s, AfterSweep(s, t, ok), t, s.threads[t].found);
  }

  lemma CleanupLocks(s: State, step: Step)
    requires LocksAgree(s) && Enabled(s, step)
    requires step.BeginCleanup? || step.QuarantineRecorded? || step.RemoveRecorded? || step.Retire?
    ensures LocksAgree(Next(s, step))
  {
    assert CallAgrees(s, step.t);
    hide LocksAgree;
    OthersAgree(s, Next(s, step), step.t, Some(s.threads[step.t].record));
  }

  lemma StepKeepsInv(s: State, step: Step)
    requires Inv(s) && Enabled(s, step)
    ensures Inv(Next(s, step))
  {
    hide Tabled, Placed, Numbered, LocksAgree, Next, Enabled;
    StepStored(s, step);
    StepLocks(s, step);
  }

  // ---- runs ----

  ghost predicate Runs(s: State, steps: seq<Step>)
    decreases |steps|
  {
    steps == [] || (Enabled(s, steps[0]) && Runs(Next(s, steps[0]), steps[1..]))
  }

  ghost function After(s: State, steps: seq<Step>): State
    requires Runs(s, steps)
    decreases |steps|
  {
    if steps == [] then s else After(Next(s, steps[0]), steps[1..])
  }

  /** A record's identity never changes and its state only moves forward. */
  ghost predicate Forward(s: State, s': State) {
    && |s.records| <= |s'.records|
    && forall r | 0 <= r < |s.records| ::
         && s'.records[r].id == s.records[r].id && s'.records[r].identity == s.records[r].identity
         && s'.records[r].generation == s.records[r].generation
         && Rank(s.records[r].state) <= Rank(s'.records[r].state)
  }

  lemma StepForward(s: State, step: Step)
    requires LocksAgree(s) && Enabled(s, step)
    ensures Forward(s, Next(s, step))
  {
    hide FindName;
    assert !step.Prepare? ==> CallAgrees(s, step.t);
    hide LocksAgree;
    if step.BeginCleanup? || step.QuarantineRecorded? || step.RemoveRecorded? || step.Retire? {
      CleanupForward(s, step);
    }
  }

  lemma CleanupForward(s: State, step: Step)
    requires Enabled(s, step) && (step.BeginCleanup? || step.QuarantineRecorded? || step.RemoveRecorded? || step.Retire?)
    requires CallAgrees(s, step.t)
    ensures Forward(s, Next(s, step))
  {
    hide FindName;
  }

  lemma {:induction false} RunForward(s: State, steps: seq<Step>)
    requires Inv(s) && Runs(s, steps)
    ensures Inv(After(s, steps)) && Forward(s, After(s, steps))
    decreases |steps|
  {
    if steps != [] {
      hide Inv, Enabled, Next;
      StepForwardInv(s, steps[0]);
      RunForward(Next(s, steps[0]), steps[1..]);
    }
  }

  lemma StepForwardInv(s: State, step: Step)
    requires Inv(s) && Enabled(s, step)
    ensures Inv(Next(s, step)) && Forward(s, Next(s, step))
  {
    hide Tabled, Placed, Numbered, LocksAgree, Next, Enabled;
    StepForward(s, step);
    StepKeepsInv(s, step);
  }

  /** The directory of an active record is at its request name in every reachable state. */
  lemma ActiveIsThere(s: State, r: RecordId)
    requires Inv(s) && r < |s.records| && s.records[r].state.Active?
    ensures Request(s.records[r].id) in s.names && s.names[Request(s.records[r].id)] == Directory(s.records[r].identity)
    ensures TableAt(s, s.records[r].id) == Some(r)
  {
  }

  predicate ActiveAt(s: State, r: RecordId) {
    r < |s.records| && s.records[r].state.Active?
  }

  /** Only a cleanup that locked this very record ends its activity: no janitor, no other handle. */
  lemma OnlyOwnCleanupDeactivates(s: State, step: Step, r: RecordId)
    requires LocksAgree(s) && Enabled(s, step) && ActiveAt(s, r) && !ActiveAt(Next(s, step), r)
    ensures step.BeginCleanup? && exists id :: (step.t, Locked(r, id)) in s.threads.Items
  {
    hide FindName;
    assert !step.Prepare? ==> CallAgrees(s, step.t);
    hide LocksAgree;
    if step.BeginCleanup? {
      assert (step.t, Locked(r, s.threads[step.t].id)) in s.threads.Items;
    }
  }

  /** A call locks record `r` only through a handle made for it, while its id is still its own or it is gone. */
  lemma LockNeedsOwnHandle(s: State, t: Thread, h: Handle, r: RecordId)
    requires Inv(s) && Enabled(s, Lock(t, h)) && r < |s.records|
    requires LockedRecord(s, t).None? && LockedRecord(AfterLock(s, t, h), t) == Some(r)
    ensures h.record == Some(r) && h.generation == s.records[r].generation
    ensures s.records[r].state.Removed? || (TableAt(s, h.id) == Some(r) && h.id == s.records[r].id)
  {
  }

  /** After an id was retired and prepared again, a handle of the earlier record is refused. */
  lemma StaleHandleRefused(s: State, h: Handle, r: RecordId)
    requires Inv(s) && r < |s.records| && TableAt(s, h.id) == Some(r) && h.record != Some(r)
    ensures !LockAccepts(s, h)
    ensures forall t | Enabled(s, Lock(t, h)) :: Next(s, Lock(t, h)) == s
  {
  }

  /** With its id free, an earlier handle is let through and its cleanup does nothing. */
  lemma RetiredCleanupDoesNothing(s: State, t: Thread, h: Handle)
    requires Inv(s) && Enabled(s, Lock(t, h)) && LockAccepts(s, h) && s.records[h.record.value].state.Removed?
    ensures Enabled(AfterLock(s, t, h), BeginCleanup(t))
    ensures SameStore(s, AfterBegin(AfterLock(s, t, h), t))
  {
  }

  /** A successful cleanup removes the recorded directory and no other entry. */
  lemma CleanupRemovesExactly(s: State, t: Thread)
    requires Inv(s) && Enabled(s, RemoveRecorded(t, true))
    ensures var r := s.threads[t].record;
            var name := Quarantine(s.records[r].id);
            && name in s.names && s.names[name] == Directory(s.records[r].identity)
            && Next(s, RemoveRecorded(t, true)).names == s.names - {name}
            && Next(s, RemoveRecorded(t, true)).records[r].state.Removed?
  {
    assert CallAgrees(s, t);
    RecordPlaced(s, s.threads[t].record);
  }

  /** `name` is the request name of a record that is active before and after the step. */
  ghost predicate StaysActive(s: State, step: Step, name: EntryName)
    requires Enabled(s, step)
  {
    exists r: RecordId :: ActiveAt(s, r) && ActiveAt(Next(s, step), r) && name == Request(s.records[r].id)
  }

  /** What one step may do to a name: nothing outside the closed namespaces, and no live directory goes. */
  lemma EntriesKept(s: State, step: Step, name: EntryName)
    requires Inv(s) && Enabled(s, step) && name in s.names
    requires !InNamespace(name) || StaysActive(s, step, name)
    ensures name in Next(s, step).names && Next(s, step).names[name] == s.names[name]
  {
    hide Inv;
    StepForwardInv(s, step);
    EntriesKeptBy(s, step, name);
  }

  lemma EntriesKeptBy(s: State, step: Step, name: EntryName)
    requires Inv(s) && Enabled(s, step) && name in s.names && Forward(s, Next(s, step)) && Inv(Next(s, step))
    requires !InNamespace(name) || StaysActive(s, step, name)
    ensures name in Next(s, step).names && Next(s, step).names[name] == s.names[name]
  {
    if InNamespace(name) {
      var r: RecordId :| ActiveAt(s, r) && ActiveAt(Next(s, step), r) && name == Request(s.records[r].id);
      ActiveIsThere(s, r);
      ActiveIsThere(Next(s, step), r);
    } else {
      ForeignNameKept(s, step, name);
    }
  }

  lemma ForeignNameKept(s: State, step: Step, name: EntryName)
    requires Inv(s) && Enabled(s, step) && name in s.names && !InNamespace(name)
    ensures name in Next(s, step).names && Next(s, step).names[name] == s.names[name]
  {
    hide Tabled, Placed, Numbered, FindName;
    if !step.Prepare? {
      assert CallAgrees(s, step.t);
    }
    if step.QuarantineRecorded? {
      var r := s.threads[step.t].record;
      FindsRequest(s, r);
      RecordIdValid(s, r);
    } else if step.RemoveRecorded? {
      RecordIdValid(s, s.threads[step.t].record);
    }
  }

  lemma RecordIdValid(s: State, r: RecordId)
    requires Inv(s) && r < |s.records| && !s.records[r].state.Removed?
    ensures ValidId(s.records[r].id)
  {
  }
}
