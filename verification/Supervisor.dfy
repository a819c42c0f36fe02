/**
 The process supervisor as a whole: any number of calls to Prepare, Execute, Discard and
 Shutdown, interleaved at the granularity of its locks.
 */
module Supervisor {
  import opened Options
  import opened SupervisorParts

  type Thread = nat

  type LeaseId = nat

  type DrainId = nat

  /** Where one call stands. */
  datatype Phase =
    | Preparing
    | Running(lease: LeaseId)
    | Draining(lease: LeaseId, drain: DrainId)
    | Cleaning(lease: LeaseId)
    | Finishing(lease: LeaseId)
    | AwaitingQuiet
    | ShutdownDraining(drain: DrainId)

  /**
   `owners` remembers which call retained each wait and `takers` which drain took it;
   `outcomes` is what the operating system finally said of it.
   */
  datatype State = State(lifecycle: Lifecycle, leases: seq<Lease>, threads: map<Thread, Phase>, waits: Waits,
                         owners: map<WaitId, Thread>, takers: map<WaitId, DrainId>, outcomes: map<WaitId, bool>, drains: nat)

  datatype Config = Config(root: nat, identity: nat)

  /** `accepted` and the like are not part of a step: whether a call is refused follows from the state. */
  datatype Step =
    | Begin(t: Thread)
    | PrepareFails(t: Thread)
    | PrepareSucceeds(t: Thread, ticket: Ticket)
    | Consume(t: Thread, lease: LeaseId, copy: Ticket, discard: bool)
    | Defer(t: Thread)
    | Complete(wait: WaitId, unexpected: bool)
    | StartDrain(t: Thread)
    | Sweep(t: Thread)
    | FinishCleanup(t: Thread)
    | Release(t: Thread)
    | StartShutdown(t: Thread)
    | PassShutdown(t: Thread)
    | AbandonShutdown(t: Thread)

  function Initial(): State {
    State(Lifecycle(false, 0), [], map[], Waits(0, map[]), map[], map[], map[], 0)
  }

  predicate Enabled(s: State, step: Step) {
    match step
    case Begin(t) => t !in s.threads
    case PrepareFails(t) => t in s.threads && s.threads[t].Preparing?
    case PrepareSucceeds(t, _) => t in s.threads && s.threads[t].Preparing?
    case Consume(t, l, _, _) => t !in s.threads && l < |s.leases|
    case Defer(t) => t in s.threads && s.threads[t].Running?
    case Complete(w, _) => w in s.waits.pending && !s.waits.pending[w].completed
    case StartDrain(t) => t in s.threads && s.threads[t].Running?
    case Sweep(t) => t in s.threads && (s.threads[t].Draining? || s.threads[t].ShutdownDraining?)
    case FinishCleanup(t) => t in s.threads && s.threads[t].Cleaning? && s.threads[t].lease < |s.leases|
    case Release(t) => t in s.threads && s.threads[t].Finishing?
    case StartShutdown(t) => t !in s.threads
    case PassShutdown(t) => t in s.threads && s.threads[t].AwaitingQuiet? && s.lifecycle.active == 0
    case AbandonShutdown(t) => t in s.threads && (s.threads[t].AwaitingQuiet? || s.threads[t].ShutdownDraining?)
  }

  /** Every call under way can take a step: none waits for ever but one that waits for quiet, and that one may give up. */
  lemma NoCallIsStuck(s: State, t: Thread)
    requires t in s.threads && (s.threads[t].Cleaning? ==> s.threads[t].lease < |s.leases|)
    ensures match s.threads[t]
            case Preparing => Enabled(s, PrepareFails(t)) && forall ticket :: Enabled(s, PrepareSucceeds(t, ticket))
            case Running(_) => Enabled(s, Defer(t)) && Enabled(s, StartDrain(t))
            case Cleaning(_) => Enabled(s, FinishCleanup(t))
            case Finishing(_) => Enabled(s, Release(t))
            case Draining(_, _) => Enabled(s, Sweep(t))
            case ShutdownDraining(_) => Enabled(s, Sweep(t)) && Enabled(s, AbandonShutdown(t))
            case AwaitingQuiet => Enabled(s, AbandonShutdown(t)) && (Enabled(s, PassShutdown(t)) <==> s.lifecycle.active == 0)
  {
  }

  /** Does this step consume a lease? A refused copy leaves everything as it was. */
  predicate Consumes(config: Config, s: State, step: Step)
    requires Enabled(s, step)
  {
    step.Consume? && s.leases[step.lease].Accepts(config.root, config.identity, step.copy)
  }

  function Next(config: Config, s: State, step: Step): State
    requires Enabled(s, step)
  {
    match step
    case Begin(t) =>
      if s.lifecycle.Begin().None? then s
      else s.(lifecycle := s.lifecycle.Begin().value, threads := s.threads[t := Preparing])
    case PrepareFails(t) =>
      s.(lifecycle := s.lifecycle.End(), threads := s.threads - {t})
    case PrepareSucceeds(t, ticket) =>
      s.(leases := s.leases + [Lease(ticket, Prepared, true)], threads := s.threads - {t})
    case Consume(t, l, copy, discard) =>
      if !Consumes(config, s, step) then s
      else s.(leases := s.leases[l := s.leases[l].Consume()],
              threads := s.threads[t := if discard then Cleaning(l) else Running(l)])
    case Defer(t) =>
      s.(waits := s.waits.Defer(), owners := s.owners[s.waits.next + 1 := t])
    case Complete(w, unexpected) =>
      s.(waits := s.waits.Complete(w, unexpected), outcomes := s.outcomes[w := unexpected])
    case StartDrain(t) =>
      s.(threads := s.threads[t := Draining(s.threads[t].lease, s.drains)], drains := s.drains + 1)
    case Sweep(t) =>
      var swept := s.(waits := s.waits.Swept(), takers := s.takers + map w <- s.waits.Ready() :: s.threads[t].drain);
      if swept.waits.pending != map[] then swept
      else if s.threads[t].Draining? then swept.(threads := s.threads[t := Cleaning(s.threads[t].lease)])
      else swept.(threads := s.threads - {t})
    case FinishCleanup(t) =>
      var l := s.threads[t].lease;
      s.(leases := s.leases[l := s.leases[l].Finish()], threads := s.threads[t := Finishing(l)])
    case Release(t) =>
      s.(lifecycle := s.lifecycle.End(), threads := s.threads - {t})
    case StartShutdown(t) =>
      s.(lifecycle := s.lifecycle.Shut(), threads := s.threads[t := AwaitingQuiet])
    case PassShutdown(t) =>
      s.(threads := s.threads[t := ShutdownDraining(s.drains)], drains := s.drains + 1)
    case AbandonShutdown(t) =>
      s.(threads := s.threads - {t})
  }

  // ---- what every reachable state satisfies ----

  function InFlight(s: State): set<Thread> {
    set t <- s.threads | s.threads[t].Preparing?
  }

  function Unconsumed(s: State): set<LeaseId> {
    set l | 0 <= l < |s.leases| && !s.leases[l].state.Consumed?
  }

  /** Calls that have marked their lease consumed and have not yet ended their operation. */
  function Releasing(s: State): set<Thread> {
    set t <- s.threads | s.threads[t].Finishing?
  }

  /** `active` counts preparations, leases not consumed, and releases still to come. */
  ghost predicate Counted(s: State) {
    s.lifecycle.active == |InFlight(s)| + |Unconsumed(s)| + |Releasing(s)|
  }

  /** The lease a call is consuming. */
  function Held(s: State, t: Thread): Option<LeaseId> {
    if t !in s.threads then None
    else match s.threads[t]
      case Running(l) => Some(l)
      case Draining(l, _) => Some(l)
      case Cleaning(l) => Some(l)
      case _ => None
  }

  ghost predicate Consuming(s: State, l: LeaseId) {
    l < |s.leases| && s.leases[l].state.Consuming?
  }

  /** Each lease being consumed has exactly one call that holds it, and each held lease is being consumed. */
  ghost predicate Exclusive(s: State) {
    && (forall t :: Held(s, t).Some? ==> Consuming(s, Held(s, t).value))
    && (forall t, u :: Held(s, t).Some? && Held(s, t) == Held(s, u) ==> t == u)
    && (forall l: LeaseId :: Consuming(s, l) ==> exists t :: Held(s, t) == Some(l))
    && (forall l | 0 <= l < |s.leases| :: s.leases[l].held <==> !s.leases[l].state.Consumed?)
  }

  /** A pending wait belongs to a call that is still running or draining. */
  ghost predicate Owned(s: State) {
    forall w <- s.waits.pending ::
      w in s.owners && s.owners[w] in s.threads && (s.threads[s.owners[w]].Running? || s.threads[s.owners[w]].Draining?)
  }

  /** Every retained wait is pending or was taken, completed, by exactly one drain. */
  ghost predicate Accounted(s: State) {
    && s.waits.Valid()
    && (forall w :: 1 <= w <= s.waits.next <==> w in s.owners)
    && (forall w <- s.waits.pending :: 1 <= w && w !in s.takers)
    && (forall w | 1 <= w <= s.waits.next && w !in s.waits.pending :: w in s.takers)
    && (forall w <- s.outcomes :: 1 <= w <= s.waits.next)
    && (forall w <- s.takers :: 1 <= w <= s.waits.next && w in s.outcomes && s.takers[w] < s.drains)
    && (forall w <- s.waits.pending ::
          (s.waits.pending[w].completed <==> w in s.outcomes)
          && (s.waits.pending[w].completed ==> s.outcomes[w] == s.waits.pending[w].unexpected))
  }

  function DrainOf(s: State, t: Thread): Option<DrainId> {
    if t !in s.threads then None
    else match s.threads[t]
      case Draining(_, d) => Some(d)
      case ShutdownDraining(d) => Some(d)
      case _ => None
  }

  /** No two calls work for the same drain. */
  ghost predicate SeparateDrains(s: State) {
    && (forall t :: DrainOf(s, t).Some? ==> DrainOf(s, t).value < s.drains)
    && (forall t, u :: DrainOf(s, t).Some? && DrainOf(s, t) == DrainOf(s, u) ==> t == u)
  }

  /** Shutdown calls exist only once new work is refused. */
  ghost predicate ShutSeen(s: State) {
    forall t <- s.threads :: s.threads[t].AwaitingQuiet? || s.threads[t].ShutdownDraining? ==> s.lifecycle.shuttingDown
  }

  ghost predicate Inv(s: State) {
    Counted(s) && Exclusive(s) && Owned(s) && Accounted(s) && SeparateDrains(s) && ShutSeen(s)
  }

  lemma InitialInv()
    ensures Inv(Initial())
  {
  }

  function One(b: bool): nat {
    if b then 1 else 0
  }

  lemma Without<T>(a: set<T>, x: T)
    ensures |a - {x}| + One(x in a) == |a|
  {
  }

  predicate IsPreparing(s: State, t: Thread) {
    t in s.threads && s.threads[t].Preparing?
  }

  predicate IsFinishing(s: State, t: Thread) {
    t in s.threads && s.threads[t].Finishing?
  }

  /** A step that moves only thread `t` changes the two thread counts by what `t` did. */
  lemma CountsByThread(s: State, s': State, t: Thread)
    requires forall u | u != t :: IsPreparing(s, u) == IsPreparing(s', u) && IsFinishing(s, u) == IsFinishing(s', u)
    ensures |InFlight(s')| + One(IsPreparing(s, t)) == |InFlight(s)| + One(IsPreparing(s', t))
    ensures |Releasing(s')| + One(IsFinishing(s, t)) == |Releasing(s)| + One(IsFinishing(s', t))
  {
    forall u | u != t
      ensures u in InFlight(s) <==> u in InFlight(s')
      ensures u in Releasing(s) <==> u in Releasing(s')
    {
      assert IsPreparing(s, u) == IsPreparing(s', u) && IsFinishing(s, u) == IsFinishing(s', u);
    }
    assert InFlight(s') - {t} == InFlight(s) - {t};
    assert Releasing(s') - {t} == Releasing(s) - {t};
    Without(InFlight(s), t);
    Without(InFlight(s'), t);
    Without(Releasing(s), t);
    Without(Releasing(s'), t);
  }

  /** A step that moves only lease `l` keeps or loses it from the count. */
  lemma CountsByLease(s: State, s': State, l: LeaseId)
    requires l < |s.leases| == |s'.leases| && s'.leases == s.leases[l := s'.leases[l]]
    requires !s.leases[l].state.Consumed?
    ensures |Unconsumed(s')| + One(s'.leases[l].state.Consumed?) == |Unconsumed(s)|
  {
    if s'.leases[l].state.Consumed? {
      assert Unconsumed(s') == Unconsumed(s) - {l};
    } else {
      assert Unconsumed(s') == Unconsumed(s);
    }
  }

  lemma CountsNewLease(s: State, s': State, lease: Lease)
    requires s'.leases == s.leases + [lease] && !lease.state.Consumed?
    ensures |Unconsumed(s')| == |Unconsumed(s)| + 1
  {
    assert Unconsumed(s') == Unconsumed(s) + {|s.leases|};
  }

  lemma StepKeepsCounted(config: Config, s: State, step: Step)
    requires Counted(s) && Exclusive(s) && Enabled(s, step)
    ensures Counted(Next(config, s, step))
  {
    hide Unconsumed, InFlight, Releasing;
    var s' := Next(config, s, step);
    if step.Complete? {
      SameCounts(s, s');
    } else {
      CountsByThread(s, s', step.t);
      if step.PrepareSucceeds? {
        CountsNewLease(s, s', Lease(step.ticket, Prepared, true));
      } else if step.FinishCleanup? {
        assert Held(s, step.t) == Some(s.threads[step.t].lease);
        CountsByLease(s, s', s.threads[step.t].lease);
      } else if step.Consume? && s' != s {
        CountsByLease(s, s', step.lease);
      } else {
        SameCounts(s, s');
      }
    }
  }

  lemma SameCounts(s: State, s': State)
    ensures s'.leases == s.leases ==> Unconsumed(s') == Unconsumed(s)
    ensures s'.threads == s.threads ==> InFlight(s') == InFlight(s) && Releasing(s') == Releasing(s)
  {
  }

  /** Steps that change no lease and no holder keep exclusivity. */
  lemma SameHolders(s: State, s': State)
    requires Exclusive(s) && s'.leases == s.leases
    requires forall t :: Held(s', t) == Held(s, t)
    ensures Exclusive(s')
  {
    forall l: LeaseId | Consuming(s', l)
      ensures exists t :: Held(s', t) == Some(l)
    {
      assert Consuming(s, l);
      var t :| Held(s, t) == Some(l);
      assert Held(s', t) == Some(l);
    }
  }

  lemma ConsumeKeepsExclusive(s: State, s': State, t: Thread, l: LeaseId)
    requires Exclusive(s) && l < |s.leases| && s.leases[l].state.Prepared? && Held(s, t).None?
    requires s'.leases == s.leases[l := s.leases[l].Consume()]
    requires Held(s', t) == Some(l) && forall u | u != t :: Held(s', u) == Held(s, u)
    ensures Exclusive(s')
  {
  }

  lemma FinishKeepsExclusive(s: State, s': State, t: Thread, l: LeaseId)
    requires Exclusive(s) && l < |s.leases| && Held(s, t) == Some(l)
    requires s'.leases == s.leases[l := s.leases[l].Finish()]
    requires Held(s', t).None? && forall u | u != t :: Held(s', u) == Held(s, u)
    ensures Exclusive(s')
  {
  }

  lemma NewLeaseKeepsExclusive(s: State, s': State, lease: Lease)
    requires Exclusive(s) && s'.leases == s.leases + [lease] && lease.state.Prepared? && lease.held
    requires forall t :: Held(s', t) == Held(s, t)
    ensures Exclusive(s')
  {
    forall k: LeaseId | Consuming(s', k)
      ensures exists u :: Held(s', u) == Some(k)
    {
      assert Consuming(s, k);
      var u :| Held(s, u) == Some(k);
      assert Held(s', u) == Some(k);
    }
  }

  lemma StepKeepsExclusive(config: Config, s: State, step: Step)
    requires Exclusive(s) && Enabled(s, step)
    ensures Exclusive(Next(config, s, step))
  {
    hide Exclusive, Consuming;
    var s' := Next(config, s, step);
    match step
    case PrepareSucceeds(t, ticket) => NewLeaseKeepsExclusive(s, s', Lease(ticket, Prepared, true));
    case Consume(t, l, _, _) => if s' != s { ConsumeKeepsExclusive(s, s', t, l); }
    case FinishCleanup(t) => FinishKeepsExclusive(s, s', t, s.threads[t].lease);
    case _ => SameHolders(s, s');
  }

  lemma StepKeepsOwned(config: Config, s: State, step: Step)
    requires Owned(s) && Accounted(s) && Enabled(s, step)
    ensures Owned(Next(config, s, step))
  {
  }

  lemma DrainsByThread(s: State, s': State, t: Thread)
    requires SeparateDrains(s) && forall u | u != t :: DrainOf(s', u) == DrainOf(s, u)
    requires
      || (s'.drains == s.drains && DrainOf(s', t) in {None, DrainOf(s, t)})
      || (s'.drains == s.drains + 1 && DrainOf(s', t) == Some(s.drains))
    ensures SeparateDrains(s')
  {
  }

  lemma StepKeepsSeparateDrains(config: Config, s: State, step: Step)
    requires SeparateDrains(s) && Enabled(s, step)
    ensures SeparateDrains(Next(config, s, step))
  {
    hide SeparateDrains;
    DrainsByThread(s, Next(config, s, step), if step.Complete? then 0 else step.t);
  }

  lemma DeferKeepsAccounted(s: State, t: Thread)
    requires Accounted(s)
    ensures Accounted(s.(waits := s.waits.Defer(), owners := s.owners[s.waits.next + 1 := t]))
  {
  }

  lemma CompleteKeepsAccounted(s: State, w: WaitId, unexpected: bool)
    requires Accounted(s) && w in s.waits.pending && !s.waits.pending[w].completed
    ensures Accounted(s.(waits := s.waits.Complete(w, unexpected), outcomes := s.outcomes[w := unexpected]))
  {
  }

  lemma SweepKeepsAccounted(s: State, d: DrainId)
    requires Accounted(s) && d < s.drains
    ensures Accounted(s.(waits := s.waits.Swept(), takers := s.takers + map w <- s.waits.Ready() :: d))
  {
  }

  lemma SameLedger(s: State, s': State)
    requires Accounted(s) && s'.waits == s.waits && s'.owners == s.owners && s'.takers == s.takers
    requires s'.outcomes == s.outcomes && s'.drains >= s.drains
    ensures Accounted(s')
  {
  }

  lemma StepKeepsAccounted(config: Config, s: State, step: Step)
    requires Accounted(s) && SeparateDrains(s) && Enabled(s, step)
    ensures Accounted(Next(config, s, step))
  {
    hide Accounted;
    var s' := Next(config, s, step);
    match step
    case Defer(t) => DeferKeepsAccounted(s, t);
    case Complete(w, unexpected) => CompleteKeepsAccounted(s, w, unexpected);
    case Sweep(t) =>
      assert DrainOf(s, t).Some?;
      var swept := s.(waits := s.waits.Swept(), takers := s.takers + map w <- s.waits.Ready() :: s.threads[t].drain);
      SweepKeepsAccounted(s, s.threads[t].drain);
      SameLedger(swept, s');
    case _ => SameLedger(s, s');
  }

  lemma StepKeepsShutSeen(config: Config, s: State, step: Step)
    requires ShutSeen(s) && Enabled(s, step)
    ensures ShutSeen(Next(config, s, step))
    ensures s.lifecycle.shuttingDown ==> Next(config, s, step).lifecycle.shuttingDown
  {
  }

  lemma StepKeepsInv(config: Config, s: State, step: Step)
    requires Inv(s) && Enabled(s, step)
    ensures Inv(Next(config, s, step))
  {
    hide Enabled, Next, Counted, Exclusive, Owned, Accounted, SeparateDrains, ShutSeen;
    StepKeepsCounted(config, s, step);
    StepKeepsExclusive(config, s, step);
    StepKeepsOwned(config, s, step);
    StepKeepsAccounted(config, s, step);
    StepKeepsSeparateDrains(config, s, step);
    StepKeepsShutSeen(config, s, step);
  }

  // ---- runs ----

  ghost predicate Runs(config: Config, s: State, steps: seq<Step>)
    decreases |steps|
  {
    steps == [] || (Enabled(s, steps[0]) && Runs(config, Next(config, s, steps[0]), steps[1..]))
  }

  ghost function After(config: Config, s: State, steps: seq<Step>): State
    requires Runs(config, s, steps)
    decreases |steps|
  {
    if steps == [] then s else After(config, Next(config, s, steps[0]), steps[1..])
  }

  lemma {:induction false} RunKeepsInv(config: Config, s: State, steps: seq<Step>)
    requires Inv(s) && Runs(config, s, steps)
    ensures Inv(After(config, s, steps))
    decreases |steps|
  {
    if steps != [] {
      hide Inv, Enabled, Next;
      StepKeepsInv(config, s, steps[0]);
      RunKeepsInv(config, Next(config, s, steps[0]), steps[1..]);
    }
  }

  /** Ending an operation never meets an empty counter. */
  lemma EndIsNeverIdle(config: Config, s: State, step: Step)
    requires Inv(s) && Enabled(s, step) && (step.PrepareFails? || step.Release?)
    ensures s.lifecycle.active > 0
  {
    if step.PrepareFails? {
      assert step.t in InFlight(s);
    } else {
      assert step.t in Releasing(s);
    }
  }

  /** The counter is preparations plus unconsumed leases exactly when no call is between its two release steps. */
  lemma ActiveIsExact(s: State)
    requires Inv(s)
    ensures s.lifecycle.active == |InFlight(s)| + |Unconsumed(s)| <==> Releasing(s) == {}
  {
  }

  /** A run that stops between the two release steps, where the counter is one more. */
  lemma ActiveMayLag(config: Config, ticket: Ticket)
    requires Lease(ticket, Prepared, true).Accepts(config.root, config.identity, ticket)
    ensures exists steps :: Runs(config, Initial(), steps)
                            && var s := After(config, Initial(), steps);
                               s.lifecycle.active == 1 && InFlight(s) == {} && Unconsumed(s) == {}
  {
    var steps := [Begin(0), PrepareSucceeds(0, ticket), Consume(0, 0, ticket, true), FinishCleanup(0)];
    var s1 := Next(config, Initial(), steps[0]);
    var s2 := Next(config, s1, steps[1]);
    var s3 := Next(config, s2, steps[2]);
    var s4 := Next(config, s3, steps[3]);
    assert Runs(config, s4, []) && After(config, s4, []) == s4;
    assert steps[3..] == [steps[3]] && steps[3..][1..] == [];
    assert Runs(config, s3, steps[3..]) && After(config, s3, steps[3..]) == s4;
    assert steps[2..][1..] == steps[3..];
    assert Runs(config, s2, steps[2..]) && After(config, s2, steps[2..]) == s4;
    assert steps[1..][1..] == steps[2..];
    assert Runs(config, s1, steps[1..]) && After(config, s1, steps[1..]) == s4;
    assert s4.leases == [Lease(ticket, Consumed, false)] && s4.threads == map[0 := Finishing(0)];
    assert InFlight(s4) == {} && Unconsumed(s4) == {} && s4.lifecycle.active == 1;
    assert steps[0..] == steps && Runs(config, Initial(), steps) && After(config, Initial(), steps) == s4;
  }

  /** How often lease `l` is consumed in a run, whichever copies of it are presented. */
  ghost function Consumptions(config: Config, s: State, steps: seq<Step>, l: LeaseId): nat
    requires Runs(config, s, steps)
    decreases |steps|
  {
    if steps == [] then 0
    else One(Consumes(config, s, steps[0]) && steps[0].lease == l) + Consumptions(config, Next(config, s, steps[0]), steps[1..], l)
  }

  ghost predicate Unused(s: State, l: LeaseId) {
    l < |s.leases| ==> s.leases[l].state.Prepared?
  }

  lemma StepUsesOnce(config: Config, s: State, step: Step, l: LeaseId)
    requires Exclusive(s) && Enabled(s, step)
    ensures One(Unused(Next(config, s, step), l)) + One(Consumes(config, s, step) && step.lease == l) == One(Unused(s, l))
  {
    if step.FinishCleanup? {
      assert Held(s, step.t) == Some(s.threads[step.t].lease);
    }
  }

  /** A lease is consumed at most once: the uses of a run are the change from unused to used. */
  lemma {:induction false} ConsumedAtMostOnce(config: Config, s: State, steps: seq<Step>, l: LeaseId)
    requires Inv(s) && Runs(config, s, steps)
    ensures Consumptions(config, s, steps, l) == One(Unused(s, l)) - One(Unused(After(config, s, steps), l))
    ensures Consumptions(config, s, steps, l) <= 1
    decreases |steps|
  {
    if steps != [] {
      hide Enabled, Next, Counted, Exclusive, Owned, Accounted, SeparateDrains, ShutSeen, Unused;
      StepKeepsInv(config, s, steps[0]);
      StepUsesOnce(config, s, steps[0], l);
      ConsumedAtMostOnce(config, Next(config, s, steps[0]), steps[1..], l);
    }
  }

  /** Pending waits exist only while some lease is being consumed. */
  lemma PendingNeedsConsumer(s: State)
    requires Inv(s) && s.waits.pending != map[]
    ensures exists l :: Consuming(s, l)
  {
    var w :| w in s.waits.pending;
    assert Held(s, s.owners[w]).Some?;
    assert Consuming(s, Held(s, s.owners[w]).value);
  }

  /** No preparation, lease, release or pending wait is left, and none can start. */
  ghost predicate Quiescent(s: State) {
    && s.lifecycle == Lifecycle(true, 0)
    && InFlight(s) == {} && Unconsumed(s) == {} && Releasing(s) == {} && s.waits.pending == map[]
  }

  lemma NothingConsumed(s: State)
    requires Unconsumed(s) == {}
    ensures forall l :: !Consuming(s, l)
  {
    forall l: LeaseId
      ensures !Consuming(s, l)
    {
      assert Consuming(s, l) ==> l in Unconsumed(s);
    }
  }

  lemma IdleIsQuiescent(s: State)
    requires Inv(s) && s.lifecycle == Lifecycle(true, 0)
    ensures Quiescent(s)
  {
    NothingConsumed(s);
    if s.waits.pending != map[] {
      PendingNeedsConsumer(s);
    }
  }

  lemma StepKeepsQuiescent(config: Config, s: State, step: Step)
    requires Inv(s) && Quiescent(s) && Enabled(s, step)
    ensures Quiescent(Next(config, s, step))
  {
    hide Inv;
    StepKeepsInv(config, s, step);
    IdleHasNoWorker(s);
    assert Next(config, s, step).lifecycle == s.lifecycle;
    IdleIsQuiescent(Next(config, s, step));
  }

  lemma IdleHasNoWorker(s: State)
    requires Inv(s) && Quiescent(s)
    ensures forall t <- s.threads :: s.threads[t].AwaitingQuiet? || s.threads[t].ShutdownDraining?
  {
    NothingConsumed(s);
    forall t <- s.threads
      ensures s.threads[t].AwaitingQuiet? || s.threads[t].ShutdownDraining?
    {
      assert t !in InFlight(s) && t !in Releasing(s);
      assert Held(s, t).None?;
    }
  }

  /** Once a shutdown has passed, nothing exists and nothing ever will, whatever happens next. */
  lemma {:induction false} ShutdownIsFinal(config: Config, s: State, t: Thread, later: seq<Step>)
    requires Inv(s) && Enabled(s, PassShutdown(t)) && Runs(config, Next(config, s, PassShutdown(t)), later)
    ensures Quiescent(After(config, Next(config, s, PassShutdown(t)), later))
  {
    IdleIsQuiescent(s);
    StepKeepsInv(config, s, PassShutdown(t));
    StepKeepsQuiescent(config, s, PassShutdown(t));
    RunKeepsQuiescent(config, Next(config, s, PassShutdown(t)), later);
  }

  lemma {:induction false} RunKeepsQuiescent(config: Config, s: State, steps: seq<Step>)
    requires Inv(s) && Quiescent(s) && Runs(config, s, steps)
    ensures Quiescent(After(config, s, steps))
    decreases |steps|
  {
    if steps != [] {
      hide Inv, Enabled, Next, Quiescent;
      StepKeepsInv(config, s, steps[0]);
      StepKeepsQuiescent(config, s, steps[0]);
      RunKeepsQuiescent(config, Next(config, s, steps[0]), steps[1..]);
    }
  }

  /** The drain of a shutdown that has passed ends on its first pass and reports nothing. */
  lemma ShutdownDrainFindsNothing(config: Config, s: State, t: Thread)
    requires Inv(s) && Quiescent(s) && Enabled(s, Sweep(t))
    ensures s.waits.Failures() == {} && t !in Next(config, s, Sweep(t)).threads
  {
    IdleHasNoWorker(s);
  }

  // ---- reports ----

  /** The waits whose errors drain `d` returns. */
  function Report(s: State, d: DrainId): set<WaitId> {
    set w <- s.takers | s.takers[w] == d && w in s.outcomes && s.outcomes[w]
  }

  /** Every unexpected error is still pending or in the report of exactly one drain. */
  lemma ReportedOnce(s: State, w: WaitId)
    requires Inv(s) && w in s.outcomes && s.outcomes[w]
    ensures w in s.owners
    ensures w in s.waits.pending <==> forall d :: w !in Report(s, d)
    ensures forall d, e :: w in Report(s, d) && w in Report(s, e) ==> d == e
  {
    if w !in s.waits.pending {
      assert w in Report(s, s.takers[w]);
    }
  }

  /** A pass of a drain adds to its report exactly the failures it removes, and to no other. */
  lemma SweepReports(config: Config, s: State, t: Thread, d: DrainId)
    requires Inv(s) && Enabled(s, Sweep(t))
    ensures Report(Next(config, s, Sweep(t)), d)
            == Report(s, d) + if d == s.threads[t].drain then s.waits.Failures() else {}
  {
  }

  /** Nothing else changes a report. */
  lemma ReportsStand(config: Config, s: State, step: Step, d: DrainId)
    requires Inv(s) && Enabled(s, step) && !step.Sweep?
    ensures Report(Next(config, s, step), d) == Report(s, d)
  {
  }
}