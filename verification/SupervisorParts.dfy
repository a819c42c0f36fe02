/** The three locked objects of the process supervisor; every method is one critical section. */
module SupervisorParts {
  import opened Options

  // ---- the operation counter ----

  datatype Lifecycle = Lifecycle(shuttingDown: bool, active: nat) {

    function Begin(): Option<Lifecycle> {
      if shuttingDown then None else Some(this.(active := active + 1))
    }

    function End(): Lifecycle {
      if active > 0 then this.(active := active - 1) else this
    }

    function Shut(): Lifecycle {
      this.(shuttingDown := true)
    }
  }

  class SupervisorLifecycle {
    var shuttingDown: bool
    var active: nat

    constructor ()
      ensures Value() == Lifecycle(false, 0)
    {
      shuttingDown, active := false, 0;
    }

    function Value(): Lifecycle
      reads this
    {
      Lifecycle(shuttingDown, active)
    }

    method Begin() returns (ok: bool)
      modifies this
      ensures ok <==> old(Value()).Begin().Some?
      ensures Value() == if ok then old(Value()).Begin().value else old(Value())
    {
      if shuttingDown {
        return false;
      }
      active := active + 1;
      return true;
    }

    method End()
      modifies this
      ensures Value() == old(Value()).End()
    {
      if active > 0 {
        active := active - 1;
      }
    }

    /** One pass through the shutdown loop; `done` means no operation is active. */
    method Shutdown() returns (done: bool)
      modifies this
      ensures Value() == old(Value()).Shut()
      ensures done <==> active == 0
    {
      if !shuttingDown {
        shuttingDown := true;
      }
      done := active == 0;
    }
  }

  // ---- the one-shot lease ----

  datatype LeaseState = Prepared | Consuming | Consumed

  /** What a `Runtime` copy carries and its lease remembers. */
  datatype Ticket = Ticket(supervisor: nat, generation: nat, id: string, dir: string,
                           owner: nat, record: nat, recordGeneration: nat)

  datatype Lease = Lease(ticket: Ticket, state: LeaseState, held: bool) {

    predicate Accepts(root: nat, identity: nat, copy: Ticket) {
      && identity != 0
      && copy.owner == root && copy.record != 0 && copy.recordGeneration != 0 && copy.id != "" && copy.dir != ""
      && copy.supervisor == identity && copy.generation != 0
      && ticket == copy && state.Prepared? && held
    }

    function Consume(): Lease { this.(state := Consuming) }

    function Finish(): Lease { this.(state := Consumed, held := false) }
  }

  /** A ticket that supervisor `identity` made for a record of `root`. */
  ghost predicate Issued(t: Ticket, root: nat, identity: nat) {
    && identity != 0 && t.supervisor == identity && t.owner == root
    && 0 !in {t.generation, t.record, t.recordGeneration} && "" !in {t.id, t.dir}
  }

  /** A lease not yet consumed accepts exactly a copy equal to its own ticket: one that differs in any field is refused. */
  lemma AcceptsOwnTicket(lease: Lease, root: nat, identity: nat, copy: Ticket)
    ensures lease.Accepts(root, identity, copy) <==>
            Issued(lease.ticket, root, identity) && lease.state == Prepared && lease.held && copy == lease.ticket
  {
  }

  class RuntimeLease {
    const ticket: Ticket
    var state: LeaseState
    var held: bool

    constructor (ticket: Ticket)
      ensures Value() == Lease(ticket, Prepared, true)
    {
      this.ticket, state, held := ticket, Prepared, true;
    }

    function Value(): Lease
      reads this
    {
      Lease(ticket, state, held)
    }

    method Consume(root: nat, identity: nat, copy: Ticket) returns (ok: bool)
      modifies this
      ensures ok <==> Issued(ticket, root, identity) && old(state) == Prepared && old(held) && copy == ticket
      ensures Value() == if ok then old(Value()).Consume() else old(Value())
    {
      if identity == 0 || copy.owner != root || copy.record == 0 || copy.recordGeneration == 0 || copy.id == "" || copy.dir == "" {
        return false;
      }
      if copy.supervisor != identity || copy.generation == 0 {
        return false;
      }
      if ticket != copy || state != Prepared || !held {
        return false;
      }
      state := Consuming;
      return true;
    }

    /** `release` says that this call, and no other, must end the operation. */
    method Finish() returns (release: bool)
      modifies this
      ensures release <==> old(state) == Consuming && old(held)
      ensures Value() == if old(state) == Consuming then old(Value()).Finish() else old(Value())
    {
      if state != Consuming {
        return false;
      }
      release := held;
      state, held := Consumed, false;
    }
  }

  // ---- retained process waits ----

  type WaitId = nat

  /** `unexpected` says the reaped error is neither nil nor an exit status. */
  datatype Wait = Wait(completed: bool, unexpected: bool)

  datatype Waits = Waits(next: nat, pending: map<WaitId, Wait>) {

    predicate Valid() {
      forall id <- pending :: id <= next
    }

    function Defer(): Waits {
      Waits(next + 1, pending[next + 1 := Wait(false, false)])
    }

    function Complete(id: WaitId, unexpected: bool): Waits {
      if id in pending then this.(pending := pending[id := Wait(true, unexpected)]) else this
    }

    function Ready(): set<WaitId> {
      set id <- pending | pending[id].completed
    }

    function Swept(): Waits {
      this.(pending := map id <- pending | !pending[id].completed :: pending[id])
    }

    /** The waits whose errors a sweep reports. */
    function Failures(): set<WaitId> {
      set id <- pending | pending[id].completed && pending[id].unexpected
    }
  }

  class CompletionOwner {
    var next: nat
    var pending: map<WaitId, Wait>

    constructor ()
      ensures Value() == Waits(0, map[])
    {
      next, pending := 0, map[];
    }

    function Value(): Waits
      reads this
    {
      Waits(next, pending)
    }

    method DeferWait() returns (id: WaitId)
      modifies this
      ensures id == old(next) + 1 && Value() == old(Value()).Defer()
    {
      next := next + 1;
      id := next;
      pending := pending[id := Wait(false, false)];
    }

    method Complete(id: WaitId, unexpected: bool)
      modifies this
      ensures Value() == old(Value()).Complete(id, unexpected)
    {
      if id in pending {
        pending := pending[id := Wait(true, unexpected)];
      }
    }

    /** One locked pass of a drain: takes every completed wait, in any order, and keeps its error. */
    method Sweep() returns (failures: set<WaitId>, empty: bool)
      modifies this
      ensures Value() == old(Value()).Swept()
      ensures failures == old(Value()).Failures()
      ensures empty <==> pending == map[]
    {
      failures := {};
      var todo := pending.Keys;
      while todo != {}
        invariant todo <= old(pending).Keys && next == old(next)
        invariant pending == map id <- old(pending) | id in todo || !old(pending)[id].completed :: old(pending)[id]
        invariant failures == set id <- old(pending) | id !in todo && old(pending)[id].completed && old(pending)[id].unexpected
        decreases |todo|
      {
        var id :| id in todo;
        todo := todo - {id};
        if pending[id].completed {
          if pending[id].unexpected {
            failures := failures + {id};
          }
          pending := pending - {id};
        }
      }
      empty := pending == map[];
    }
  }
}
