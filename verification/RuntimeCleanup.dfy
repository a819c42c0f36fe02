/** The runtime root's operations as they change its fields, each critical section one method. */
module RuntimeCleanup {
  import opened Options
  import opened RuntimeRoot
  import opened RuntimeStale
  import opened RuntimeTree
  import T = TreeRemoval

  /** Every entry but the one showing directory `identity`. */
  function WithoutDirectory(names: map<EntryName, Entry>, identity: Identity): map<EntryName, Entry> {
    map n <- names | names[n] != Directory(identity) :: names[n]
  }

  /** The quarantine name is free for a record whose directory still has to move there. */
  ghost predicate Removable(s: State, r: RecordId)
    requires r < |s.records|
  {
    s.records[r].state.Removed? || s.records[r].state.Quarantined? || Quarantine(s.records[r].id) !in s.names
  }

  /** What a cleanup of record `r` did to the tree: success took exactly the recorded directory with everything in it. */
  ghost predicate TreeCleaned(s: State, before: T.Tree, tree: T.Tree, r: RecordId, ok: bool)
    requires r < |s.records|
  {
    && (ok && !s.records[r].state.Removed? ==> T.Gone(before, tree, NameAt(Place(s.records[r]).value)))
    && (s.records[r].state.Removed? ==> tree == before)
    && T.SameOutside(before, tree, Places(s.records[r].id))
  }

  /**
   What a cleanup of record `r` did to the names and the table: success removed exactly the
   recorded directory and freed its id, or found the record removed and did nothing; failure
   moved at most the recorded directory.
   */
  ghost predicate CleanedUp(s: State, s': State, id: Id, r: RecordId, ok: bool)
    requires r < |s.records|
  {
    var identity := s.records[r].identity;
    && r < |s'.records| && s'.records[r].identity == identity
    && WithoutDirectory(s'.names, identity) == WithoutDirectory(s.names, identity)
    && (ok ==> s'.records[r].state == Removed)
    && (ok && s.records[r].state == Removed ==> s'.names == s.names && s'.table == s.table)
    && (ok && s.records[r].state != Removed ==> s'.names == WithoutDirectory(s.names, identity) && s'.table == s.table - {id})
    && (!ok ==> s'.table == s.table)
  }

  predicate Shows(names: map<EntryName, Entry>, name: EntryName, identity: Identity) {
    name in names && names[name] == Directory(identity)
  }

  class Root {
    /** The directory itself; it also counts what went wrong. */
    const files: T.FileSystem
    var records: seq<Record>
    var table: map<Id, RecordId>
    var generation: nat
    var names: map<EntryName, Entry>
    var nextIdentity: Identity
    ghost var tableHolder: Option<Thread>
    ghost var threads: map<Thread, Phase>

    /** A root just opened on a directory that shows `names`. */
    constructor (files: T.FileSystem, names: map<EntryName, Entry>, nextIdentity: Identity)
      ensures this.files == files && Value() == Initial(names, nextIdentity)
    {
      this.files, this.names, this.nextIdentity := files, names, nextIdentity;
      records, table, generation, tableHolder, threads := [], map[], 0, None, map[];
    }

    ghost function Value(): State
      reads this
    {
      State(records, table, generation, names, nextIdentity, tableHolder, threads)
    }

    /** The names are the first level of the tree. */
    ghost predicate Mounted()
      reads this`names, files`tree
    {
      T.Rooted(files.tree) && Mirrors(names, files.tree)
    }

    /** Makes the directory of a request. */
    method MakeRequest(id: Id) returns (ok: bool)
      requires Mounted() && ValidId(id) && Request(id) !in names
      modifies this`names, this`nextIdentity, files
      ensures Mounted() && old(files.faults) <= files.faults && (files.Faultless() ==> ok)
      ensures !ok ==> names == old(names) && nextIdentity == old(nextIdentity) && files.tree == old(files.tree)
      ensures ok ==>
                && names == old(names)[Request(id) := Directory(old(nextIdentity))] && nextIdentity == old(nextIdentity) + 1
                && files.tree == old(files.tree)[NameAt(Request(id)) := T.Directory(old(nextIdentity))]
    {
      hide T.Rooted, Mirrors, NameAt;
      RootIsDirectory(files.tree);
      Mirrored(names, files.tree, Request(id));
      MadeMirrors(names, files.tree, Request(id), nextIdentity);
      ok := files.MakeDirectory(NameAt(Request(id)), nextIdentity);
      if ok {
        names, nextIdentity := names[Request(id) := Directory(nextIdentity)], nextIdentity + 1;
      }
    }

    method Prepare(id: Id) returns (handle: Option<Handle>, ghost outcome: PrepareOutcome)
      requires Mounted()
      modifies this, files
      ensures Mounted()
      ensures files.tree == if !Preparable(old(Value()), id) || outcome.FailedClean? then old(files.tree)
                            else old(files.tree)[NameAt(Request(id)) := T.Directory(old(nextIdentity))]
      ensures Value() == AfterPrepare(old(Value()), id, outcome)
      ensures handle.Some? <==> outcome.Made? && Preparable(old(Value()), id)
      ensures !Preparable(old(Value()), id) ==> Value() == old(Value())
      ensures handle.Some? ==>
                && records == old(records) + [Record(id, Active, old(generation) + 1, old(nextIdentity), None)]
                && table == old(table)[id := |old(records)|] && names == old(names)[Request(id) := Directory(old(nextIdentity))]
                && Honoured(Value(), handle.value) && handle.value.id == id
      ensures handle.None? ==> records == old(records) && table == old(table) && names - {Request(id)} == old(names) - {Request(id)}
      ensures files.Faultless() && Preparable(old(Value()), id) ==> handle.Some?
    {
      hide T.Rooted, Mirrors, NameAt, ValidId, ProperId;
      PreparableIs(Value(), id);
      ProperIds(id);
      handle, outcome := None, FailedClean;
      if !ValidId(id) || id in table || Quarantine(id) in names || Request(id) in names {
        return;
      }
      var made := nextIdentity;
      var created := MakeRequest(id);
      if !created {
        return;
      }
      var unverified := files.Fault();
      if unverified {
        outcome := FailedLeaving;
        return;
      }
      generation := generation + 1;
      records := records + [Record(id, Active, generation, made, None)];
      table := table[id := |records| - 1];
      handle, outcome := Some(Handle(id, Some(|records| - 1), generation, true)), Made;
    }

    /** Finds and locks the record of a handle. */
    method LockRecord(t: Thread, h: Handle) returns (ok: bool)
      requires Enabled(Value(), Lock(t, h))
      modifies this
      ensures ok <==> Honoured(old(Value()), h)
      ensures Value() == AfterLock(old(Value()), t, h)
    {
      HonouredIs(Value(), h);
      if !ValidId(h.id) || !h.here || h.record.None? || h.record.value >= |records| || h.generation == 0
         || records[h.record.value].generation != h.generation {
        return false;
      }
      var r := h.record.value;
      if h.id in table {
        if table[h.id] != r {
          return false;
        }
      } else if !records[r].state.Removed? {
        return false;
      }
      records := records[r := records[r].(holder := Some(t))];
      threads := threads[t := Locked(r, h.id)];
      return true;
    }

    method UnlockRecord(t: Thread, r: RecordId)
      requires r < |records|
      modifies this`records, this`threads
      ensures Value() == Unlock(old(Value()), t, r)
    {
      records := records[r := records[r].(holder := None)];
      threads := threads - {t};
    }

    /** Renames a directory to a free name of a namespace. */
    method RenameEntry(source: EntryName, target: EntryName) returns (ok: bool)
      requires Mounted() && source in names && names[source].Directory? && InNamespace(target) && target !in names
      modifies this`names, files
      ensures Mounted() && old(files.faults) <= files.faults && (files.Faultless() ==> ok)
      ensures !ok ==> names == old(names) && files.tree == old(files.tree)
      ensures ok ==>
                && names == (old(names) - {source})[target := old(names)[source]] && NameAt(target) !in old(files.tree)
                && T.Moved(old(files.tree), files.tree, NameAt(source), NameAt(target))
    {
      hide T.Moved, T.Rooted, Mirrors, NameAt;
      Mirrored(names, files.tree, source);
      Mirrored(names, files.tree, target);
      TwoNames(NameAt(source), NameAt(target));
      ghost var tree := files.tree;
      ok := files.RenameDirectory(NameAt(source), NameAt(target));
      if ok {
        MovedMirrors(names, source, target, tree, files.tree);
        names := (names - {source})[target := names[source]];
      }
    }

    /** Moves the recorded directory to its quarantine name; `from` is the name it moved from. */
    method QuarantineRecorded(t: Thread, r: RecordId) returns (ok: bool, ghost from: Option<EntryName>)
      requires t in threads && threads[t] == Quarantining(r) && r < |records| && Placed(Value())
      requires Mounted() && ValidId(records[r].id)
      modifies this`records, this`names, this`threads, files
      ensures Mounted() && old(files.faults) <= files.faults
      ensures files.Faultless() && Quarantine(old(records)[r].id) !in old(names) && Directory(old(records)[r].identity) in old(names).Values ==> ok
      ensures exists renamed, checked :: Value() == AfterQuarantine(old(Value()), t, renamed, checked)
      ensures ok <==> t in threads && threads[t] == Removing(r)
      ensures ok ==> from.Some?
      ensures from.None? ==> names == old(names) && files.tree == old(files.tree)
      ensures from.Some? ==>
                && Shows(old(names), from.value, old(records)[r].identity)
                && Quarantine(records[r].id) !in old(names) && NameAt(Quarantine(records[r].id)) !in old(files.tree)
                && T.Moved(old(files.tree), files.tree, NameAt(from.value), NameAt(Quarantine(records[r].id)))
    {
      hide T.Moved, T.Rooted, Mirrors, NameAt, ValidId, Placed, FindName;
      var shown, request, target := Directory(records[r].identity), Request(records[r].id), Quarantine(records[r].id);
      ghost var before := Value();
      var source: Option<EntryName> := None;
      from := None;
      if request in names && names[request] == shown {
        source := Some(request);
      } else if name :| name in names && names[name] == shown {
        source := Some(name);
      }
      FindsIt(before, r, source);
      var fault := files.Fault();
      var renamed := false;
      if !fault && source.Some? && target !in names {
        renamed := RenameEntry(source.value, target);
      }
      if !renamed {
        UnlockRecord(t, r);
        assert Value() == AfterQuarantine(before, t, false, false);
        return false, None;
      }
      from := source;
      records := records[r := records[r].(state := Quarantined)];
      var unchecked := files.Fault();
      ok := !unchecked;
      if ok {
        threads := threads[t := Removing(r)];
        assert Value() == AfterQuarantine(before, t, true, true);
      } else {
        UnlockRecord(t, r);
        assert Value() == AfterQuarantine(before, t, true, false);
      }
    }

    /**
     Removes the quarantined directory with everything in it, if its name still shows it.
     Success takes exactly that tree; failure only entries inside it.
     */
    method RemoveRecorded(t: Thread, r: RecordId) returns (ok: bool)
      requires t in threads && threads[t] == Removing(r) && r < |records| && Mounted()
      modifies this`records, this`names, this`threads, files
      ensures Mounted() && old(files.faults) <= files.faults
      ensures Value() == AfterRemove(old(Value()), t, ok)
      ensures ok ==> Shows(old(names), Quarantine(old(records)[r].id), old(records)[r].identity)
      ensures files.Faultless() && Shows(old(names), Quarantine(old(records)[r].id), old(records)[r].identity) ==> ok
      ensures ok <==> t in threads && threads[t] == Retiring(r, records[r].id)
      ensures var place := NameAt(Quarantine(old(records)[r].id));
              if ok then T.Gone(old(files.tree), files.tree, place) else T.Pruned(old(files.tree), files.tree, place)
    {
      hide T.Gone, T.Pruned, T.Rooted, Mirrors, NameAt;
      var name := Quarantine(records[r].id);
      NothingPruned(files.tree, NameAt(name));
      ok := name in names && names[name] == Directory(records[r].identity);
      if ok {
        var refused := files.Fault();
        ok := !refused;
      }
      if ok {
        ok := RemoveTree(files, names, name);
      }
      if !ok {
        UnlockRecord(t, r);
        return;
      }
      names := names - {name};
      records := records[r := records[r].(state := Removed)];
      UnlockRecord(t, r);
      threads := threads[t := Retiring(r, records[r].id)];
    }

    method RetireRecord(t: Thread, id: Id, r: RecordId)
      requires t in threads && threads[t] == Retiring(r, id) && r < |records|
      modifies this`table, this`threads
      ensures Value() == AfterRetire(old(Value()), t)
    {
      threads := threads - {t};
      if id !in table || table[id] != r || !records[r].state.Removed? {
        return;
      }
      table := table - {id};
    }

    /** Takes the table lock and the record's, and lets go again if the name shows a live runtime. */
    method LockStale(t: Thread, name: EntryName) returns (stale: bool)
      requires Enabled(Value(), RuntimeRoot.LockStale(t, name))
      modifies this`records, this`tableHolder, this`threads
      ensures Value() == AfterLockStale(old(Value()), t, name)
      ensures stale <==> !InUse(old(Value()), name)
      ensures !stale ==> Value() == old(Value())
      ensures stale ==> t in threads && threads[t] == Sweeping(name, TableAt(old(Value()), name.id))
    {
      if name.id in table && name.Request? && records[table[name.id]].state.Active? {
        return false;
      }
      ghost var found := TableAt(Value(), name.id);
      if name.id in table {
        records := records[table[name.id] := records[table[name.id]].(holder := Some(t))];
      }
      tableHolder, threads := Some(t), threads[t := Sweeping(name, found)];
      return true;
    }

    /** Removes one stale entry with everything in it and drops its record, then releases both locks. */
    method Sweep(t: Thread, name: EntryName, found: Option<RecordId>) returns (ok: bool)
      requires Enabled(Value(), RuntimeRoot.Sweep(t, true)) && threads[t] == Sweeping(name, found) && Mounted()
      requires found == TableAt(Value(), name.id)
      modifies this, files
      ensures Mounted() && old(files.faults) <= files.faults
      ensures Value() == AfterSweep(old(Value()), t, ok)
      ensures ok ==> Stale(old(Value()), name) && T.Gone(old(files.tree), files.tree, NameAt(name))
      ensures !ok ==> T.Pruned(old(files.tree), files.tree, NameAt(name))
      ensures !Stale(old(Value()), name) ==> files.tree == old(files.tree)
      ensures files.Faultless() && Stale(old(Value()), name) ==> ok
    {
      hide T.Gone, T.Pruned, T.Rooted, Mirrors, NameAt;
      StaleIs(Value(), name, found);
      NothingPruned(files.tree, NameAt(name));
      ok := name in names && names[name].Directory?;
      if ok && found.Some? {
        var state := records[found.value].state;
        ok := names[name].identity == records[found.value].identity && (state.CleanupPending? || state.Quarantined?);
      }
      if ok {
        var refused := files.Fault();
        ok := !refused;
      }
      if ok {
        ok := RemoveTree(files, names, name);
      }
      if ok {
        names := names - {name};
        if found.Some? {
          records := records[found.value := records[found.value].(state := Removed)];
          if name.id in table && table[name.id] == found.value {
            table := table - {name.id};
          }
        }
      }
      if found.Some? {
        records := records[found.value := records[found.value].(holder := None)];
      }
      tableHolder, threads := None, threads - {t};
    }

    /**
     One janitor entry: a stale one goes with everything in it and its record, and nothing
     else changes. What is neither stale nor in use is an error.
     */
    method JanitorEntry(t: Thread, name: EntryName) returns (failed: bool)
      requires Inv(Value()) && Enabled(Value(), RuntimeRoot.LockStale(t, name)) && Mounted()
      modifies this, files
      ensures Mounted() && Inv(Value()) && Forward(old(Value()), Value()) && Namespaced(name)
      ensures old(files.faults) <= files.faults && (files.Faultless() && Stale(old(Value()), name) ==> !failed)
      ensures !Stale(old(Value()), name) ==> (failed <==> !InUse(old(Value()), name)) && files.tree == old(files.tree)
      ensures !failed && Stale(old(Value()), name) ==>
                Value() == Swept(old(Value()), name) && T.Gone(old(files.tree), files.tree, NameAt(name))
      ensures failed || !Stale(old(Value()), name) ==> Value() == old(Value())
      ensures failed ==> T.Pruned(old(files.tree), files.tree, NameAt(name))
    {
      ghost var s0 := Value();
      JanitorLocks(s0, t, name);
      var found := if name.id in table then Some(table[name.id]) else None;
      NothingPruned(files.tree, NameAt(name));
      ForwardSelf(s0);
      hide Inv, Forward, AfterSweep, AfterLockStale, Stale, Enabled, InUse, Swept, Namespaced, InNamespace;
      hide T.Gone, T.Pruned, T.Rooted, Mirrors, NameAt;
      var stale := LockStale(t, name);
      if stale {
        failed := SweepLocked(t, name, found, s0);
      } else {
        failed := false;
      }
    }

    /** The rest of a janitor entry that has taken the locks in state `s`. */
    method SweepLocked(t: Thread, name: EntryName, found: Option<RecordId>, ghost s: State) returns (failed: bool)
      requires Inv(s) && Enabled(s, RuntimeRoot.LockStale(t, name)) && !InUse(s, name) && Namespaced(name)
      requires name.id in s.table ==> s.table[name.id] < |s.records|
      requires Value() == AfterLockStale(s, t, name) && Mounted()
      requires found == TableAt(s, name.id)
      modifies this, files
      ensures Mounted() && Inv(Value()) && Forward(s, Value()) && old(files.faults) <= files.faults
      ensures files.Faultless() && Stale(s, name) ==> !failed
      ensures !Stale(s, name) ==> failed && files.tree == old(files.tree)
      ensures if failed then Value() == s && T.Pruned(old(files.tree), files.tree, NameAt(name))
              else Value() == Swept(s, name) && T.Gone(old(files.tree), files.tree, NameAt(name))
    {
      JanitorLocks(s, t, name);
      hide Inv, Forward, AfterSweep, AfterLockStale, Stale, Enabled, InUse, Swept, Namespaced, InNamespace;
      hide T.Gone, T.Pruned, T.Rooted, Mirrors, NameAt;
      var ok := Sweep(t, name, found);
      JanitorSweeps(s, t, name, ok);
      failed := !ok;
    }

    /** One name of a pass: an entry of the two namespaces, or one the janitor passes over. */
    method Visit(t: Thread, name: EntryName, ghost s0: State, ghost tree: T.Tree, ghost todo: set<EntryName>,
                 failed: bool, ghost faultless: bool)
      returns (failed': bool)
      requires Inv(Value()) && Quiet(s0) && t !in s0.threads && Mounted()
      requires PassAt(s0, Value(), todo, failed, faultless) && name in todo
      requires T.SameOutside(tree, files.tree, TakablePlaces(s0))
      modifies this, files
      ensures Inv(Value()) && Mounted() && old(files.faults) <= files.faults
      ensures PassAt(s0, Value(), todo - {name}, failed', faultless && files.Faultless())
      ensures T.SameOutside(tree, files.tree, TakablePlaces(s0))
    {
      NamespacedIs(name);
      ghost var s, between := Value(), files.tree;
      PassIsPassed(s0, s, todo, failed, faultless);
      hide Inv, Forward, Passed, Stale, InUse, Swept, Namespaced, InNamespace, Enabled, PassAt, Quiet, TakablePlaces;
      hide T.Gone, T.Pruned, T.SameOutside, T.Rooted, Mirrors, NameAt;
      failed' := failed;
      if InNamespace(name) {
        JanitorMayLock(s0, s, t, name);
        TableBounded(s, name);
        var wrong := JanitorEntry(t, name);
        failed' := failed || wrong;
        PassWeakens(s0, s, todo, failed, faultless, faultless && files.Faultless());
        PassSteps(s0, s, Value(), todo, failed, faultless && files.Faultless(), name, wrong);
        PassOutside(s0, s, name, tree, between, files.tree);
      } else {
        PassWeakens(s0, s, todo, failed, faultless, faultless && files.Faultless());
        PassSkips(s0, s, todo, failed, faultless && files.Faultless(), name);
      }
    }

    /**
     A pass over all names with nothing in between. Without a fault every stale entry goes;
     on a root just opened that is every directory of the two namespaces. A pass that does
     not fail leaves nothing there but runtimes in use.
     */
    method Janitor(t: Thread) returns (failed: bool)
      requires Inv(Value()) && Quiet(Value()) && t !in threads && Mounted()
      modifies this, files
      ensures Mounted() && Inv(Value()) && Passed(old(Value()), Value())
      ensures files.Faultless() ==> forall n <- names | Namespaced(n) :: !Stale(old(Value()), n)
      ensures files.Faultless() && old(table) == map[] ==> forall n <- names | Namespaced(n) :: names[n] == NoDirectory
      ensures !failed ==> forall n <- names | Namespaced(n) :: InUse(Value(), n)
      ensures files.Faultless() && failed ==> exists n <- names | Namespaced(n) :: !InUse(Value(), n)
      ensures T.SameOutside(old(files.tree), files.tree, TakablePlaces(old(Value())))
      ensures forall n <- old(names) | n !in names :: forall p <- files.tree :: !T.AtOrBelow(NameAt(n), p)
    {
      hide Inv, Forward, Passed, Stale, InUse, Swept, Namespaced, InNamespace, Enabled, PassAt, Quiet, TakablePlaces;
      hide T.Gone, T.Pruned, T.SameOutside, T.Rooted, Mirrors, NameAt;
      ghost var s0, tree := Value(), files.tree;
      PassBegins(s0, true);
      NothingOutside(tree, TakablePlaces(s0));
      failed := false;
      var todo := names.Keys;
      ghost var faultless := true;
      while todo != {}
        invariant old(files.faults) <= files.faults && (files.Faultless() ==> faultless)
        invariant Mounted() && Inv(Value()) && PassAt(s0, Value(), todo, failed, faultless)
        invariant T.SameOutside(tree, files.tree, TakablePlaces(s0))
      {
        PassIsPassed(s0, Value(), todo, failed, faultless);
        var cancelled := files.Fault();
        if cancelled {
          failed := true;
          TakenIsEmpty(s0, Value(), files.tree);
          return;
        }
        var name :| name in todo;
        ghost var before := files.faults;
        failed := Visit(t, name, s0, tree, todo, failed, faultless);
        faultless := faultless && files.faults == before;
        todo := todo - {name};
      }
      PassIsPassed(s0, Value(), todo, failed, faultless);
      PassEnds(s0, Value(), failed, faultless);
      TakenIsEmpty(s0, Value(), files.tree);
    }

    /**
     A whole cleanup with nothing in between. A success has removed exactly the recorded
     directory with everything in it and freed its id, or found the record already removed
     and done nothing.
     */
    method Cleanup(t: Thread, h: Handle) returns (ok: bool)
      requires Inv(Value()) && Enabled(Value(), Lock(t, h)) && Mounted()
      modifies this, files
      ensures Mounted()
      ensures if Honoured(old(Value()), h) then TreeCleaned(old(Value()), old(files.tree), files.tree, h.record.value, ok)
              else files.tree == old(files.tree)
      ensures Inv(Value()) && Forward(old(Value()), Value())
      ensures Honoured(old(Value()), h) ==> CleanedUp(old(Value()), Value(), h.id, h.record.value, ok)
      ensures !Honoured(old(Value()), h) ==> !ok && Value() == old(Value())
      ensures files.Faultless() && Honoured(old(Value()), h) && Removable(old(Value()), h.record.value) ==> ok
    {
      ghost var s0 := Value();
      CleanupLocked(s0, t, h);
      hide Inv, Forward, Enabled, T.Gone, T.SameOutside, T.Rooted, Mirrors, NameAt, Honoured, AfterLock, Place, Places;
      hide CleanedUp, TreeCleaned, Removable;
      ok := LockRecord(t, h);
      if !ok {
        return;
      }
      ghost var s1 := Value();
      ok := RunLocked(t, h.id, h.record.value);
      SameCleanup(s0, s1, Value(), h, ok);
    }

    method RunLocked(t: Thread, id: Id, r: RecordId) returns (ok: bool)
      requires Inv(Value()) && t in threads && threads[t] == Locked(r, id) && r < |records| && tableHolder.None?
      requires !records[r].state.Removed? ==> records[r].id == id
      requires Mounted()
      modifies this, files
      ensures Mounted()
      ensures TreeCleaned(old(Value()), old(files.tree), files.tree, r, ok)
      ensures Inv(Value()) && Forward(old(Value()), Value())
      ensures CleanedUp(old(Value()), Value(), id, r, ok)
      ensures old(files.faults) <= files.faults && (files.Faultless() && Removable(old(Value()), r) ==> ok)
    {
      hide Inv, Forward, T.Gone, T.Pruned, T.Moved, T.SameOutside, T.Rooted, Mirrors, NameAt, Places;
      hide QuarantinedFrom;
      ghost var s0, tree := Value(), files.tree;
      StepForwardInv(s0, BeginCleanup(t));
      ForwardSelf(s0);
      NothingOutside(tree, Places(records[r].id));
      match records[r].state {
        case Removed =>
          UnlockRecord(t, r);
          return true;
        case Quarantined =>
          threads := threads[t := Removing(r)];
        case _ =>
          records := records[r := records[r].(state := CleanupPending)];
          threads := threads[t := Quarantining(r)];
          assert Value() == AfterBegin(s0, t);
          ghost var s1 := Value();
          ok := MoveToQuarantine(t, r);
          ForwardTrans(s0, s1, Value());
          if !ok {
            return;
          }
      }
      ghost var s2, between := Value(), files.tree;
      ok := RemoveAndRetire(t, id, r);
      ForwardTrans(s0, s2, Value());
      RemovedInAll(tree, between, files.tree, s0.records[r], ok);
    }

    method MoveToQuarantine(t: Thread, r: RecordId) returns (ok: bool)
      requires Inv(Value()) && t in threads && threads[t] == Quarantining(r) && r < |records| && tableHolder.None?
      requires Mounted()
      modifies this, files
      ensures Mounted() && T.SameOutside(old(files.tree), files.tree, Places(old(records)[r].id))
      ensures ok ==> QuarantinedFrom(old(files.tree), files.tree, old(records)[r].id)
      ensures Inv(Value()) && Forward(old(Value()), Value())
      ensures table == old(table) && tableHolder.None?
      ensures r < |records| && records[r].id == old(records)[r].id && records[r].identity == old(records)[r].identity
      ensures ok ==> t in threads && threads[t] == Removing(r)
      ensures old(files.faults) <= files.faults && (files.Faultless() && Quarantine(old(records)[r].id) !in old(names) ==> ok)
      ensures WithoutDirectory(names, records[r].identity) == WithoutDirectory(old(names), records[r].identity)
    {
      hide Inv, T.Moved, T.SameOutside, T.Rooted, Mirrors, NameAt;
      ghost var s1, tree := Value(), files.tree;
      InvIsPlaced(s1);
      PendingShown(s1, t);
      NothingOutside(tree, Places(records[r].id));
      ghost var from;
      ok, from := QuarantineRecorded(t, r);
      if from.Some? {
        T.MovedOutside(tree, files.tree, NameAt(from.value), NameAt(Quarantine(s1.records[r].id)));
      }
      ghost var renamed, checked :| Value() == AfterQuarantine(s1, t, renamed, checked);
      StepForwardInv(s1, Step.QuarantineRecorded(t, renamed, checked));
      QuarantineMoves(s1, t, renamed, checked);
    }

    method RemoveAndRetire(t: Thread, id: Id, r: RecordId) returns (ok: bool)
      requires Inv(Value()) && t in threads && threads[t] == Removing(r) && r < |records| && tableHolder.None?
      requires records[r].id == id && Mounted()
      modifies this, files
      ensures Inv(Value()) && Forward(old(Value()), Value()) && Mounted()
      ensures var place := NameAt(Quarantine(id));
              if ok then T.Gone(old(files.tree), files.tree, place) else T.Pruned(old(files.tree), files.tree, place)
      ensures ok ==> records[r].state.Removed? && names == WithoutDirectory(old(names), records[r].identity)
                     && table == old(table) - {id}
      ensures records[r].identity == old(records)[r].identity
      ensures !ok ==> table == old(table) && names == old(names)
      ensures old(files.faults) <= files.faults && (files.Faultless() ==> ok)
    {
      hide Inv, Forward, T.Gone, T.Pruned, T.Rooted, Mirrors, NameAt;
      ghost var s2 := Value();
      QuarantinedShown(s2, t);
      ok := RemoveRecorded(t, r);
      StepForwardInv(s2, Step.RemoveRecorded(t, ok));
      if ok {
        ghost var s3 := Value();
        RemoveDrops(s2, t);
        RetireRecord(t, records[r].id, r);
        StepForwardInv(s3, Retire(t));
        ForwardTrans(s2, s3, Value());
      }
    }
  }

  /** The directory of a record being quarantined is still there. */
  lemma PendingShown(s: State, t: Thread)
    requires Inv(s) && t in s.threads && s.threads[t].Quarantining? && s.threads[t].record < |s.records|
    ensures Directory(s.records[s.threads[t].record].identity) in s.names.Values
    ensures ValidId(s.records[s.threads[t].record].id)
    ensures forall n <- s.names :: s.names[n] == Directory(s.records[s.threads[t].record].identity) ==>
              n == Request(s.records[s.threads[t].record].id)
  {
    assert CallAgrees(s, t);
    RecordPlaced(s, s.threads[t].record);
    RecordIdValid(s, s.threads[t].record);
  }

  /** The recorded directory went from its request name to its free quarantine name, with everything in it. */
  ghost predicate QuarantinedFrom(before: T.Tree, after: T.Tree, id: Id) {
    NameAt(Quarantine(id)) !in before && T.Moved(before, after, NameAt(Request(id)), NameAt(Quarantine(id)))
  }

  lemma RootIsDirectory(tree: T.Tree)
    requires T.Rooted(tree)
    ensures forall p: T.Location | |p| == 1 :: T.IsDirectory(tree, p[..0])
  {
    assert forall p: T.Location | |p| == 1 :: p[..0] == [];
  }

  lemma NothingOutside(tree: T.Tree, places: set<T.Location>)
    ensures T.SameOutside(tree, tree, places)
  {
  }

  /** Whether it was quarantined before or just now, removing it at its quarantine name removes it where it was. */
  lemma RemovedInAll(before: T.Tree, between: T.Tree, after: T.Tree, record: Record, ok: bool)
    requires T.Rooted(before) && !record.state.Removed?
    requires if record.state.Quarantined? then between == before
             else QuarantinedFrom(before, between, record.id)
    requires var place := NameAt(Quarantine(record.id));
             if ok then T.Gone(between, after, place) else T.Pruned(between, after, place)
    ensures T.SameOutside(before, after, Places(record.id))
    ensures ok ==> T.Gone(before, after, NameAt(Place(record).value))
  {
    hide T.Gone, T.Pruned, T.Moved, T.SameOutside, T.Rooted, NameAt;
    var request, quarantine := NameAt(Request(record.id)), NameAt(Quarantine(record.id));
    T.RemovedOutside(between, after, quarantine, Places(record.id));
    if !record.state.Quarantined? {
      T.MovedOutside(before, between, request, quarantine);
      T.OutsideChains(before, between, after, Places(record.id));
      RequestIsNotQuarantine(record.id);
      TwoNames(request, quarantine);
      if ok {
        T.MovedThenGone(before, between, after, request, quarantine);
      }
    }
  }

  lemma RequestIsNotQuarantine(id: Id)
    ensures NameAt(Request(id)) != NameAt(Quarantine(id))
  {
    NameParts(Request(id));
    NameParts(Quarantine(id));
  }

  /** The directory of a record being removed is at its quarantine name. */
  lemma QuarantinedShown(s: State, t: Thread)
    requires Inv(s) && t in s.threads && s.threads[t].Removing? && s.threads[t].record < |s.records|
    ensures Shows(s.names, Quarantine(s.records[s.threads[t].record].id), s.records[s.threads[t].record].identity)
  {
    assert CallAgrees(s, t);
    RecordPlaced(s, s.threads[t].record);
  }

  /** Searching for the recorded directory has one answer. */
  lemma FindsIt(s: State, r: RecordId, source: Option<EntryName>)
    requires Placed(s) && r < |s.records|
    requires source.Some? ==> Shows(s.names, source.value, s.records[r].identity)
    requires source.None? ==> forall name <- s.names :: s.names[name] != Directory(s.records[r].identity)
    ensures FindName(s, r) == source
  {
    if source.Some? {
      OneName(s, r, source.value);
    }
  }

  lemma OneName(s: State, r: RecordId, name: EntryName)
    requires Placed(s) && r < |s.records| && name in s.names && s.names[name] == Directory(s.records[r].identity)
    ensures FindName(s, r) == Some(name)
  {
  }

  lemma InvIsPlaced(s: State)
    requires Inv(s)
    ensures Placed(s)
  {
  }

  /** Locking the record of an honoured handle changes nothing a cleanup works on. */
  lemma CleanupLocked(s: State, t: Thread, h: Handle)
    requires Inv(s) && Enabled(s, Lock(t, h))
    ensures var locked := AfterLock(s, t, h);
            && Inv(locked) && Forward(s, locked)
            && (!Honoured(s, h) ==> locked == s)
            && (Honoured(s, h) ==>
                  && var r := h.record.value;
                  && r < |s.records| == |locked.records| && locked.tableHolder == None
                  && t in locked.threads && locked.threads[t] == Locked(r, h.id)
                  && locked.names == s.names && locked.table == s.table
                  && locked.records[r] == s.records[r].(holder := Some(t))
                  && (!s.records[r].state.Removed? ==> s.records[r].id == h.id))
  {
    StepForwardInv(s, Lock(t, h));
    HonouredIs(s, h);
    hide ProperId, ValidId, Forward, Honoured;
  }

  /** What a cleanup did since it took the lock is what it did since before. */
  lemma SameCleanup(s: State, locked: State, s': State, h: Handle, ok: bool)
    requires Honoured(s, h) && Forward(s, locked) && Forward(locked, s')
    requires |locked.records| == |s.records| && locked.names == s.names && locked.table == s.table
    requires locked.records[h.record.value].(holder := None) == s.records[h.record.value].(holder := None)
    requires CleanedUp(locked, s', h.id, h.record.value, ok)
    ensures Forward(s, s') && CleanedUp(s, s', h.id, h.record.value, ok)
    ensures Removable(locked, h.record.value) <==> Removable(s, h.record.value)
    ensures forall before, tree :: TreeCleaned(locked, before, tree, h.record.value, ok) ==> TreeCleaned(s, before, tree, h.record.value, ok)
  {
    ForwardTrans(s, locked, s');
    hide Forward, T.Gone, T.SameOutside, NameAt, WithoutDirectory;
    assert locked.records[h.record.value].(holder := None).state == s.records[h.record.value].(holder := None).state;
    assert locked.records[h.record.value].(holder := None).identity == s.records[h.record.value].(holder := None).identity;
    assert locked.records[h.record.value].(holder := None).id == s.records[h.record.value].(holder := None).id;
  }

  lemma QuarantineMoves(s: State, t: Thread, renamed: bool, checked: bool)
    requires Inv(s) && Enabled(s, Step.QuarantineRecorded(t, renamed, checked))
    ensures var s', r := AfterQuarantine(s, t, renamed, checked), s.threads[t].record;
            && s'.table == s.table && s'.tableHolder == s.tableHolder
            && WithoutDirectory(s'.names, s.records[r].identity) == WithoutDirectory(s.names, s.records[r].identity)
  {
    assert CallAgrees(s, t);
    FindsRequest(s, s.threads[t].record);
    hide Inv, Tabled, Placed, Numbered, LocksAgree, FindName;
  }

  lemma RemoveDrops(s: State, t: Thread)
    requires Inv(s) && Enabled(s, Step.RemoveRecorded(t, true))
    ensures var s', r := AfterRemove(s, t, true), s.threads[t].record;
            && s'.names == WithoutDirectory(s.names, s.records[r].identity)
            && s'.records[r].state.Removed? && TableAt(s, s.records[r].id) == Some(r)
  {
    assert CallAgrees(s, t);
    RecordPlaced(s, s.threads[t].record);
  }
}
