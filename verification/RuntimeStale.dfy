/**
 What the runtime root accepts and what its janitor takes, said of the names, the table and
 the records alone.
 */
module RuntimeStale {
  import opened Options
  import opened RuntimeRoot
  import opened RuntimeTree
  import T = TreeRemoval

  ghost predicate IdCharacter(c: char) {
    || c in {'a', 'b', 'c', 'd', 'e', 'f', 'g', 'h', 'i', 'j', 'k', 'l', 'm', 'n', 'o', 'p', 'q', 'r', 's', 't', 'u', 'v', 'w', 'x', 'y', 'z'}
    || c in {'A', 'B', 'C', 'D', 'E', 'F', 'G', 'H', 'I', 'J', 'K', 'L', 'M', 'N', 'O', 'P', 'Q', 'R', 'S', 'T', 'U', 'V', 'W', 'X', 'Y', 'Z'}
    || c in {'0', '1', '2', '3', '4', '5', '6', '7', '8', '9', '_', '-'}
  }

  ghost predicate ProperId(id: Id) {
    8 <= |id| <= 80 && forall c <- id :: IdCharacter(c)
  }

  lemma IdCharacters(c: char)
    ensures IdChar(c) <==> IdCharacter(c)
  {
  }

  lemma ProperIds(id: Id)
    ensures ValidId(id) <==> ProperId(id)
  {
    hide IdChar, IdCharacter;
    forall k | 0 <= k < |id|
      ensures IdChar(id[k]) <==> IdCharacter(id[k])
    {
      IdCharacters(id[k]);
    }
    assert ProperId(id) ==> forall k | 0 <= k < |id| :: id[k] in id;
  }

  /** A name the janitor looks at. */
  ghost predicate Namespaced(n: EntryName) {
    !n.Other? && ProperId(n.id)
  }

  lemma NamespacedIs(n: EntryName)
    ensures InNamespace(n) <==> Namespaced(n)
  {
    if !n.Other? {
      ProperIds(n.id);
    }
  }

  /** A request can be prepared: its id is proper and nothing with that id is known or left over. */
  ghost predicate Preparable(s: State, id: Id) {
    ProperId(id) && id !in s.table.Keys && {Request(id), Quarantine(id)} !! s.names.Keys
  }

  lemma PreparableIs(s: State, id: Id)
    ensures Preparable(s, id) <==> !PrepareRefused(s, id)
  {
    hide ProperId, ValidId;
    ProperIds(id);
  }

  /**
   A handle to clean up with: it is the one made for its record, and its id still is that
   record's own, or is free with the record removed.
   */
  ghost predicate Honoured(s: State, h: Handle) {
    && ProperId(h.id) && h.record.Some? && h.record.value < |s.records|
    && h == Handle(h.id, h.record, s.records[h.record.value].generation, true) && h.generation > 0
    && if h.id in s.table then s.table[h.id] == h.record.value else s.records[h.record.value].state == Removed
  }

  lemma HonouredIs(s: State, h: Handle)
    ensures Honoured(s, h) <==> LockAccepts(s, h)
  {
    hide ProperId, ValidId;
    ProperIds(h.id);
  }

  /** The janitor takes it: a directory without a record, or the recorded one of a record whose cleanup has begun. */
  ghost predicate Stale(s: State, name: EntryName)
    requires !name.Other?
  {
    && name in s.names && s.names[name] != NoDirectory
    && (name.id in s.table ==>
          && s.table[name.id] < |s.records|
          && var record := s.records[s.table[name.id]];
             s.names[name] == Directory(record.identity) && record.state in {CleanupPending, Quarantined})
  }

  /** The janitor leaves it alone: it shows a runtime in use. */
  ghost predicate InUse(s: State, name: EntryName)
    requires !name.Other?
  {
    name == Request(name.id) && name.id in s.table && s.table[name.id] < |s.records| && s.records[s.table[name.id]].state == Active
  }

  /** The entry is gone, with it the record of its id. */
  ghost function Swept(s: State, name: EntryName): State
    requires !name.Other? && (name.id in s.table ==> s.table[name.id] < |s.records|)
  {
    s.(names := s.names - {name}, table := s.table - {name.id},
       records := if name.id in s.table then s.records[s.table[name.id] := s.records[s.table[name.id]].(state := Removed)]
                  else s.records)
  }

  lemma StaleIs(s: State, name: EntryName, found: Option<RecordId>)
    requires !name.Other? && found == (if name.id in s.table then Some(s.table[name.id]) else None)
    requires found.Some? ==> found.value < |s.records|
    ensures Stale(s, name) <==> SweepAccepts(s, name, found)
  {
  }

  /** Taking the locks changes nothing a sweep looks at. */
  lemma JanitorLocks(s: State, t: Thread, name: EntryName)
    requires Inv(s) && Enabled(s, RuntimeRoot.LockStale(t, name))
    ensures Namespaced(name) && (name.id in s.table ==> s.table[name.id] < |s.records|)
    ensures var locked := AfterLockStale(s, t, name);
            if InUse(s, name) then locked == s
            else
              && t in locked.threads && locked.threads[t] == Sweeping(name, TableAt(s, name.id))
              && (forall ok: bool :: Enabled(locked, RuntimeRoot.Sweep(t, ok)))
              && locked.names == s.names && TableAt(locked, name.id) == TableAt(s, name.id) && (Stale(locked, name) <==> Stale(s, name))
    ensures InUse(s, name) ==> !Stale(s, name)
  {
    hide Tabled, Placed, Numbered, LocksAgree, ValidId, ProperId;
    NamespacedIs(name);
    TableBounded(s, name);
  }

  /** Sweeping under the locks and letting them go is one sweep, or no change at all. */
  lemma JanitorSweeps(s: State, t: Thread, name: EntryName, ok: bool)
    requires Inv(s) && Enabled(s, RuntimeRoot.LockStale(t, name)) && !InUse(s, name)
    requires name.id in s.table ==> s.table[name.id] < |s.records|
    ensures Enabled(AfterLockStale(s, t, name), RuntimeRoot.Sweep(t, ok))
    ensures AfterSweep(AfterLockStale(s, t, name), t, ok) == if ok && Stale(s, name) then Swept(s, name) else s
    ensures ok && Stale(s, name) ==> Inv(Swept(s, name)) && Forward(s, Swept(s, name))
    ensures Inv(s) && Forward(s, s)
  {
    JanitorLocks(s, t, name);
    SweepOrNothing(s, t, name, ok);
    ForwardSelf(s);
    hide Inv, Forward, Stale, Swept, AfterSweep, AfterLockStale, TableAt;
    if ok && Stale(s, name) {
      SweepKeeps(s, t, name, ok);
    }
  }

  lemma SweepKeeps(s: State, t: Thread, name: EntryName, ok: bool)
    requires Inv(s) && Enabled(s, RuntimeRoot.LockStale(t, name)) && Enabled(AfterLockStale(s, t, name), RuntimeRoot.Sweep(t, ok))
    ensures Inv(AfterSweep(AfterLockStale(s, t, name), t, ok)) && Forward(s, AfterSweep(AfterLockStale(s, t, name), t, ok))
  {
    hide Inv, Forward, Enabled, AfterSweep, AfterLockStale;
    var locked := Next(s, RuntimeRoot.LockStale(t, name));
    StepForwardInv(s, RuntimeRoot.LockStale(t, name));
    StepForwardInv(locked, RuntimeRoot.Sweep(t, ok));
    ForwardTrans(s, locked, Next(locked, RuntimeRoot.Sweep(t, ok)));
  }

  lemma SweepOrNothing(s: State, t: Thread, name: EntryName, ok: bool)
    requires Inv(s) && Enabled(s, RuntimeRoot.LockStale(t, name)) && !InUse(s, name)
    requires Enabled(AfterLockStale(s, t, name), RuntimeRoot.Sweep(t, ok))
    requires name.id in s.table ==> s.table[name.id] < |s.records|
    ensures AfterSweep(AfterLockStale(s, t, name), t, ok) == if ok && Stale(s, name) then Swept(s, name) else s
  {
    hide Tabled, Placed, Numbered, LocksAgree, ValidId;
    var locked := AfterLockStale(s, t, name);
    assert locked.threads - {t} == s.threads;
    if name.id in s.table {
      var r := s.table[name.id];
      assert locked.records[r := s.records[r]] == s.records;
      assert locked.records[r := s.records[r].(state := Removed)] == s.records[r := s.records[r].(state := Removed)];
    } else {
      assert s.table - {name.id} == s.table;
    }
  }

  lemma ForwardSelf(s: State)
    ensures Forward(s, s)
  {
  }

  lemma ForwardTrans(a: State, b: State, c: State)
    requires Forward(a, b) && Forward(b, c)
    ensures Forward(a, c)
  {
  }

  lemma TableBounded(s: State, name: EntryName)
    requires Inv(s) && !name.Other?
    ensures name.id in s.table ==> s.table[name.id] < |s.records|
  {
  }

  // ---- a whole pass ----

  /** No call is under way. */
  ghost predicate Quiet(s: State) {
    s.tableHolder == None && forall r | 0 <= r < |s.records| :: s.records[r].holder == None
  }

  /** A directory of an id with a stale directory. */
  ghost predicate Takable(s: State, n: EntryName) {
    && Namespaced(n) && n in s.names && s.names[n] != NoDirectory
    && (Stale(s, Request(n.id)) || Stale(s, Quarantine(n.id)))
  }

  ghost function TakablePlaces(s: State): set<T.Location> {
    set n <- s.names | Takable(s, n) :: NameAt(n)
  }

  ghost predicate NamesPassed(s: State, s': State) {
    && (forall n <- s'.names :: n in s.names && s'.names[n] == s.names[n])
    && (forall n <- s.names | n !in s'.names :: Takable(s, n))
  }

  ghost predicate TablePassed(s: State, s': State) {
    && (forall id <- s'.table :: id in s.table && s'.table[id] == s.table[id] < |s.records| == |s'.records|
                                && s'.records[s.table[id]] == s.records[s.table[id]])
    && (forall id <- s.table | id !in s'.table :: Stale(s, Request(id)) || Stale(s, Quarantine(id)))
  }

  ghost predicate RecordsPassed(s: State, s': State) {
    && |s'.records| == |s.records|
    && forall r | 0 <= r < |s.records| ::
         s'.records[r] == s.records[r]
         || (s.records[r].state in {CleanupPending, Quarantined} && s'.records[r] == s.records[r].(state := Removed))
  }

  /** What a pass may have done: takable directories are gone, with the records of their ids, and nothing else is different. */
  ghost predicate Passed(s: State, s': State) {
    && NamesPassed(s, s') && TablePassed(s, s') && RecordsPassed(s, s')
    && s' == s.(names := s'.names, table := s'.table, records := s'.records)
  }

  lemma NothingPassed(s: State)
    requires Inv(s)
    ensures Passed(s, s)
  {
  }

  /** Sweeping one more stale entry is within what a pass may do. */
  lemma PassGoesOn(s: State, s': State, name: EntryName)
    requires Inv(s') && Passed(s, s') && Namespaced(name) && Stale(s', name)
    ensures Takable(s, name) && Passed(s, Swept(s', name))
  {
    StaleIsTakable(s, s', name);
    TableGoesOn(s, s', name);
    RecordsGoOn(s, s', name);
    hide Inv, Takable, Stale, ProperId, Namespaced, TablePassed, RecordsPassed;
  }

  lemma TableGoesOn(s: State, s': State, name: EntryName)
    requires Inv(s') && TablePassed(s, s') && !name.Other? && Stale(s', name)
    requires Stale(s, Request(name.id)) || Stale(s, Quarantine(name.id))
    ensures TablePassed(s, Swept(s', name))
  {
    SweptTable(s', name);
    hide Inv, Stale;
  }

  lemma RecordsGoOn(s: State, s': State, name: EntryName)
    requires RecordsPassed(s, s') && !name.Other? && Stale(s', name)
    ensures RecordsPassed(s, Swept(s', name))
  {
  }

  lemma StaleIsTakable(s: State, s': State, name: EntryName)
    requires Passed(s, s') && Namespaced(name) && Stale(s', name)
    ensures Takable(s, name) && (Stale(s, Request(name.id)) || Stale(s, Quarantine(name.id)))
    ensures name.id in s'.table ==> Stale(s, name)
  {
    hide ProperId;
  }

  lemma SweptTable(s: State, name: EntryName)
    requires Inv(s) && !name.Other? && Stale(s, name)
    ensures forall id <- Swept(s, name).table ::
              id in s.table && id != name.id && s.table[id] < |s.records| && Swept(s, name).records[s.table[id]] == s.records[s.table[id]]
    ensures |Swept(s, name).records| == |s.records|
  {
    hide Placed, Numbered, LocksAgree;
  }

  /** Each stale entry still there is stale yet. */
  lemma StaysStale(s: State, s': State, name: EntryName)
    requires Passed(s, s') && Namespaced(name) && Stale(s, name) && name in s'.names
    ensures Stale(s', name)
  {
  }

  lemma UseStays(s: State, name: EntryName, other: EntryName)
    requires Inv(s) && !name.Other? && Stale(s, name) && !other.Other?
    ensures InUse(Swept(s, name), other) <==> InUse(s, other)
  {
    hide Placed, Numbered, LocksAgree;
  }

  /** The janitor may take the locks for any name it looks at. */
  lemma JanitorMayLock(s: State, s': State, t: Thread, name: EntryName)
    requires Inv(s') && Quiet(s) && t !in s.threads && Passed(s, s') && InNamespace(name)
    ensures Enabled(s', RuntimeRoot.LockStale(t, name))
  {
    hide Placed, Numbered, LocksAgree, ValidId;
  }

  /** What one janitor entry does to the state of the root. */
  ghost predicate EntryDone(s: State, s': State, name: EntryName, failed: bool)
    requires !name.Other? && (name.id in s.table ==> s.table[name.id] < |s.records|)
  {
    if Stale(s, name) then s' == if failed then s else Swept(s, name)
    else s' == s && (failed <==> !InUse(s, name))
  }

  /** How far a pass has got, with the names in `todo` still to come. */
  ghost predicate PassAt(s: State, s': State, todo: set<EntryName>, failed: bool, faultless: bool) {
    && Passed(s, s') && todo <= s'.names.Keys
    && (faultless ==> forall n <- s'.names.Keys - todo | Namespaced(n) :: !Stale(s, n))
    && (!failed ==> forall n <- s'.names.Keys - todo | Namespaced(n) :: InUse(s', n))
    && (faultless && failed ==> exists n <- s'.names.Keys - todo | Namespaced(n) :: !InUse(s', n))
  }

  lemma PassBegins(s: State, faultless: bool)
    requires Inv(s)
    ensures PassAt(s, s, s.names.Keys, false, faultless)
  {
    NothingPassed(s);
  }

  lemma PassSkips(s: State, s': State, todo: set<EntryName>, failed: bool, faultless: bool, name: EntryName)
    requires PassAt(s, s', todo, failed, faultless) && name in todo && !Namespaced(name)
    ensures PassAt(s, s', todo - {name}, failed, faultless)
  {
    hide Passed, Stale, InUse, ProperId;
  }

  lemma PassSteps(s: State, s': State, after: State, todo: set<EntryName>, failed: bool, faultless: bool, name: EntryName, wrong: bool)
    requires Inv(s') && PassAt(s, s', todo, failed, faultless) && name in todo && Namespaced(name)
    requires name.id in s'.table ==> s'.table[name.id] < |s'.records|
    requires EntryDone(s', after, name, wrong) && (faultless && Stale(s', name) ==> !wrong)
    ensures PassAt(s, after, todo - {name}, failed || wrong, faultless)
  {
    if Stale(s', name) && !wrong {
      PassSweeps(s, s', todo, failed, faultless, name);
    } else {
      PassLeaves(s, s', todo, failed, faultless, name, wrong);
    }
  }

  lemma PassSweeps(s: State, s': State, todo: set<EntryName>, failed: bool, faultless: bool, name: EntryName)
    requires Inv(s') && PassAt(s, s', todo, failed, faultless) && name in todo && Namespaced(name)
    requires Stale(s', name)
    ensures PassAt(s, Swept(s', name), todo - {name}, failed, faultless)
  {
    PassGoesOn(s, s', name);
    forall n: EntryName | Namespaced(n)
      ensures InUse(Swept(s', name), n) <==> InUse(s', n)
    {
      UseStays(s', name, n);
    }
    StaleNotInUse(s', name);
    hide Inv, Passed, Stale, InUse, ProperId, Takable;
  }

  lemma StaleNotInUse(s: State, name: EntryName)
    requires !name.Other? && Stale(s, name)
    ensures !InUse(s, name)
  {
  }

  lemma PassLeaves(s: State, s': State, todo: set<EntryName>, failed: bool, faultless: bool, name: EntryName, wrong: bool)
    requires PassAt(s, s', todo, failed, faultless) && name in todo && Namespaced(name)
    requires if Stale(s', name) then wrong && !faultless else wrong <==> !InUse(s', name)
    ensures PassAt(s, s', todo - {name}, failed || wrong, faultless)
  {
    if Stale(s, name) {
      StaysStale(s, s', name);
    }
    hide Passed, Stale, InUse, ProperId;
  }

  lemma PassWeakens(s: State, s': State, todo: set<EntryName>, failed: bool, faultless: bool, less: bool)
    requires PassAt(s, s', todo, failed, faultless) && (less ==> faultless)
    ensures PassAt(s, s', todo, failed, less)
  {
  }

  lemma PassIsPassed(s: State, s': State, todo: set<EntryName>, failed: bool, faultless: bool)
    requires PassAt(s, s', todo, failed, faultless)
    ensures Passed(s, s') && todo <= s'.names.Keys
  {
  }

  lemma PassEnds(s: State, s': State, failed: bool, faultless: bool)
    requires PassAt(s, s', {}, failed, faultless)
    ensures faultless ==> forall n <- s'.names | Namespaced(n) :: !Stale(s, n)
    ensures faultless && s.table == map[] ==> forall n <- s'.names | Namespaced(n) :: s'.names[n] == NoDirectory
    ensures !failed ==> forall n <- s'.names | Namespaced(n) :: InUse(s', n)
    ensures faultless && failed ==> exists n <- s'.names | Namespaced(n) :: !InUse(s', n)
  {
    hide ProperId;
    assert s'.names.Keys - {} == s'.names.Keys;
  }

  /** One entry changes the tree at takable places only. */
  lemma PassOutside(s: State, s': State, name: EntryName, before: T.Tree, between: T.Tree, after: T.Tree)
    requires Inv(s') && Passed(s, s') && Namespaced(name) && T.SameOutside(before, between, TakablePlaces(s))
    requires if Stale(s', name) then T.Gone(between, after, NameAt(name)) || T.Pruned(between, after, NameAt(name))
             else after == between
    ensures T.SameOutside(before, after, TakablePlaces(s))
  {
    if Stale(s', name) {
      PassGoesOn(s, s', name);
      hide T.Gone, T.Pruned, T.SameOutside, Passed, Inv, Takable;
      T.RemovedOutside(between, after, NameAt(name), TakablePlaces(s));
      T.OutsideChains(before, between, after, TakablePlaces(s));
    }
  }

  /** What a pass has taken is gone with everything in it. */
  lemma TakenIsEmpty(s: State, s': State, tree: T.Tree)
    requires Passed(s, s') && T.Rooted(tree) && Mirrors(s'.names, tree)
    ensures forall n <- s.names | n !in s'.names :: forall p <- tree :: !T.AtOrBelow(NameAt(n), p)
  {
    hide Mirrors, ProperId, ValidId, Stale, NameAt, T.AtOrBelow, T.Rooted;
    forall n <- s.names | n !in s'.names
      ensures forall p <- tree :: !T.AtOrBelow(NameAt(n), p)
    {
      assert Takable(s, n);
      NamespacedIs(n);
      Mirrored(s'.names, tree, n);
      T.NothingBelow(tree, NameAt(n));
    }
  }
}
