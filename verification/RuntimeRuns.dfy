/** What a whole run of the runtime root keeps, whatever calls interleave in it. */
module RuntimeRuns {
  import opened Options
  import opened RuntimeRoot

  /** The state after the first `k` steps. */
  ghost function StateAt(s: State, steps: seq<Step>, k: nat): State
    requires Runs(s, steps) && k <= |steps|
    decreases k
  {
    if k == 0 then s else StateAt(Next(s, steps[0]), steps[1..], k - 1)
  }

  lemma {:induction false} StateAtStep(s: State, steps: seq<Step>, k: nat)
    requires Runs(s, steps) && k < |steps|
    ensures Enabled(StateAt(s, steps, k), steps[k])
    ensures StateAt(s, steps, k + 1) == Next(StateAt(s, steps, k), steps[k])
    decreases k
  {
    if k == 0 {
      assert StateAt(s, steps, 1) == StateAt(Next(s, steps[0]), steps[1..], 0);
    } else {
      StateAtStep(Next(s, steps[0]), steps[1..], k - 1);
      assert steps[1..][k - 1] == steps[k];
    }
  }

  lemma {:induction false} StateAtEnd(s: State, steps: seq<Step>)
    requires Runs(s, steps)
    ensures StateAt(s, steps, |steps|) == After(s, steps)
    decreases |steps|
  {
    if steps != [] {
      StateAtEnd(Next(s, steps[0]), steps[1..]);
    }
  }

  /** Between any two moments of a run records only move forward. */
  lemma {:induction false} Between(s: State, steps: seq<Step>, j: nat, k: nat)
    requires Inv(s) && Runs(s, steps) && j <= k <= |steps|
    ensures Inv(StateAt(s, steps, k)) && Forward(StateAt(s, steps, j), StateAt(s, steps, k))
    decreases k
  {
    hide Inv, Enabled, Next;
    if k == 0 {
      assert StateAt(s, steps, 0) == s;
    } else {
      Between(s, steps, if j < k then j else k - 1, k - 1);
      StateAtStep(s, steps, k - 1);
      StepForwardInv(StateAt(s, steps, k - 1), steps[k - 1]);
    }
  }

  lemma ActiveBefore(s: State, s': State, r: RecordId)
    requires Forward(s, s') && ActiveAt(s', r) && r < |s.records|
    ensures ActiveAt(s, r) && s.records[r].id == s'.records[r].id && s.records[r].identity == s'.records[r].identity
  {
  }

  /** The entry a record that is active at both ends of a run has at its request name. */
  ghost predicate EntryOf(s: State, r: RecordId, id: Id, identity: Identity) {
    ActiveAt(s, r) && Request(id) in s.names && s.names[Request(id)] == Directory(identity)
  }

  /** A record active before and after a run was active throughout, and its entry never changed. */
  lemma ActiveEntryKept(s: State, steps: seq<Step>, r: RecordId)
    requires Inv(s) && Runs(s, steps) && ActiveAt(s, r) && ActiveAt(After(s, steps), r)
    ensures forall k | 0 <= k <= |steps| ::
              EntryOf(StateAt(s, steps, k), r, s.records[r].id, s.records[r].identity)
  {
    hide Inv, Runs, After, StateAt, Forward;
    StateAtEnd(s, steps);
    forall k | 0 <= k <= |steps|
      ensures EntryOf(StateAt(s, steps, k), r, s.records[r].id, s.records[r].identity)
    {
      StateAtStart(s, steps);
      Between(s, steps, 0, k);
      Between(s, steps, k, |steps|);
      RecordStays(s, StateAt(s, steps, k), r);
      ActiveBefore(StateAt(s, steps, k), After(s, steps), r);
      ActiveIsThere(StateAt(s, steps, k), r);
    }
  }

  lemma StateAtStart(s: State, steps: seq<Step>)
    requires Runs(s, steps)
    ensures StateAt(s, steps, 0) == s
  {
  }

  lemma RecordStays(s: State, s': State, r: RecordId)
    requires Forward(s, s') && r < |s.records|
    ensures r < |s'.records| && s'.records[r].id == s.records[r].id && s'.records[r].identity == s.records[r].identity
    ensures s'.records[r].generation == s.records[r].generation
  {
  }

  /** In step `k` the call `t` that holds record `r` ends its activity. */
  ghost predicate EndsActivity(s: State, steps: seq<Step>, k: nat, t: Thread, r: RecordId, id: Id)
    requires Runs(s, steps) && k < |steps|
  {
    && steps[k] == BeginCleanup(t)
    && ActiveAt(StateAt(s, steps, k), r) && !ActiveAt(StateAt(s, steps, k + 1), r)
    && t in StateAt(s, steps, k).threads && StateAt(s, steps, k).threads[t] == Locked(r, id)
  }

  /** The last moment at which a record is active. */
  lemma {:induction false} LastActive(s: State, steps: seq<Step>, r: RecordId, end: nat) returns (k: nat)
    requires Runs(s, steps) && end <= |steps| && ActiveAt(s, r) && !ActiveAt(StateAt(s, steps, end), r)
    ensures k < end && ActiveAt(StateAt(s, steps, k), r) && !ActiveAt(StateAt(s, steps, k + 1), r)
    decreases end
  {
    StateAtStart(s, steps);
    if ActiveAt(StateAt(s, steps, end - 1), r) {
      k := end - 1;
    } else {
      k := LastActive(s, steps, r, end - 1);
    }
  }

  /** In step `j` the call `t` locks record `r` with a handle made for it. */
  ghost predicate LocksOwn(s: State, steps: seq<Step>, j: nat, t: Thread, r: RecordId)
    requires Runs(s, steps) && j < |steps|
  {
    && steps[j].Lock? && steps[j].t == t
    && var h := steps[j].handle;
       h.record == Some(r) && r < |StateAt(s, steps, j).records| && h.here
       && h.generation == StateAt(s, steps, j).records[r].generation && h.id == StateAt(s, steps, j).records[r].id
  }

  /** A call that holds a record held it from the start or locked it in the run. */
  lemma {:induction false} HeldSinceLock(s: State, steps: seq<Step>, k: nat, t: Thread, r: RecordId, id: Id)
    requires Inv(s) && Runs(s, steps) && k <= |steps| && ActiveAt(StateAt(s, steps, k), r)
    requires t in StateAt(s, steps, k).threads && StateAt(s, steps, k).threads[t] == Locked(r, id)
    ensures
      || (t in s.threads && s.threads[t] == Locked(r, id))
      || exists j: nat :: j < k && LocksOwn(s, steps, j, t, r)
    decreases k
  {
    hide Inv, Enabled, Next, Forward;
    if k == 0 {
      StateAtStart(s, steps);
    } else {
      var before, step := StateAt(s, steps, k - 1), steps[k - 1];
      StateAtStep(s, steps, k - 1);
      Between(s, steps, k - 1, k);
      Between(s, steps, 0, k - 1);
      HeldBefore(before, step, t, r, id);
      if t in before.threads && before.threads[t] == Locked(r, id) {
        ActiveBefore(before, StateAt(s, steps, k), r);
        HeldSinceLock(s, steps, k - 1, t, r, id);
      } else {
        LockedActive(before, t, step.handle, r);
        assert LocksOwn(s, steps, k - 1, t, r);
      }
    }
  }

  /** Only its own lock step puts a call in possession of a record. */
  lemma HeldBefore(s: State, step: Step, t: Thread, r: RecordId, id: Id)
    requires Inv(s) && Enabled(s, step)
    requires t in Next(s, step).threads && Next(s, step).threads[t] == Locked(r, id)
    ensures
      || (t in s.threads && s.threads[t] == Locked(r, id) && r < |s.records|)
      || (step.Lock? && step.t == t && step.handle.record == Some(r) && LockAccepts(s, step.handle)
          && Next(s, step) == AfterLock(s, t, step.handle))
  {
    hide Tabled, Placed, Numbered, FindName;
    assert CallAgrees(s, t);
    hide LocksAgree;
  }

  lemma LockedActive(s: State, t: Thread, h: Handle, r: RecordId)
    requires Inv(s) && LockAccepts(s, h) && h.record == Some(r) && ActiveAt(AfterLock(s, t, h), r)
    ensures h.here && h.generation == s.records[r].generation && h.id == s.records[r].id
  {
  }

  /**
   A record that stops being active in a run does so in the first step of a cleanup that holds
   it, and that cleanup came with a handle made for this very record: never through the
   janitor, another handle, or an earlier one of the same id.
   */
  lemma DeactivatedByOwnCleanup(s: State, steps: seq<Step>, r: RecordId)
    requires Inv(s) && Runs(s, steps) && ActiveAt(s, r) && !ActiveAt(After(s, steps), r)
    ensures exists k: nat, t, id ::
              && k < |steps| && EndsActivity(s, steps, k, t, r, id)
              && ((t in s.threads && s.threads[t] == Locked(r, id)) || exists j: nat :: j < k && LocksOwn(s, steps, j, t, r))
  {
    hide Inv, Runs, After, StateAt, Next, Enabled, Forward;
    StateAtEnd(s, steps);
    var k := LastActive(s, steps, r, |steps|);
    var at := StateAt(s, steps, k);
    StateAtStep(s, steps, k);
    Between(s, steps, 0, k);
    InvHasLocks(at);
    OnlyOwnCleanupDeactivates(at, steps[k], r);
    var t := steps[k].t;
    var id :| (t, Locked(r, id)) in at.threads.Items;
    assert t in at.threads && at.threads[t] == Locked(r, id);
    HeldSinceLock(s, steps, k, t, r, id);
    assert EndsActivity(s, steps, k, t, r, id);
  }

  lemma InvHasLocks(s: State)
    requires Inv(s)
    ensures LocksAgree(s)
  {
  }

  predicate SameName(names: map<EntryName, Entry>, names': map<EntryName, Entry>, name: EntryName) {
    (name in names <==> name in names') && (name in names ==> names'[name] == names[name])
  }

  /** An entry outside the two closed namespaces is never made, changed or removed. */
  lemma {:induction false} ForeignEntryKept(s: State, steps: seq<Step>, name: EntryName, k: nat)
    requires Inv(s) && Runs(s, steps) && k <= |steps| && !InNamespace(name)
    ensures SameName(s.names, StateAt(s, steps, k).names, name)
    decreases k
  {
    hide Inv, Enabled, Next, Forward, InNamespace;
    if k == 0 {
      StateAtStart(s, steps);
    } else {
      ForeignEntryKept(s, steps, name, k - 1);
      StateAtStep(s, steps, k - 1);
      Between(s, steps, 0, k - 1);
      ForeignInStep(StateAt(s, steps, k - 1), steps[k - 1], name);
    }
  }

  lemma ForeignInStep(s: State, step: Step, name: EntryName)
    requires Inv(s) && Enabled(s, step) && !InNamespace(name)
    ensures SameName(s.names, Next(s, step).names, name)
  {
    if name in s.names {
      ForeignNameKept(s, step, name);
    } else {
      ForeignNotMade(s, step, name);
    }
  }

  lemma ForeignNotMade(s: State, step: Step, name: EntryName)
    requires Inv(s) && Enabled(s, step) && !InNamespace(name) && name !in s.names
    ensures name !in Next(s, step).names
  {
    hide Tabled, Placed, Numbered, FindName;
    if step.QuarantineRecorded? {
      assert CallAgrees(s, step.t);
      RecordIdValid(s, s.threads[step.t].record);
    }
  }
}
