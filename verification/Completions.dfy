/** Joining the completions of one provider process: its wait, its stdin writer and its two readers. */
module Completions {
  import opened Options
  import opened SupervisorParts

  // ---- the first terminal event ----

  datatype Reason = OutputOverflow | CallerCancellation | SupervisorTimeout | NormalExit | CleanupFailure

  datatype Observation = Observation(overflowed: bool, canceled: bool, timedOut: bool, waited: bool)

  function Classify(o: Observation): Reason {
    if o.overflowed then OutputOverflow
    else if o.canceled then CallerCancellation
    else if o.timedOut then SupervisorTimeout
    else if o.waited then NormalExit
    else CleanupFailure
  }

  class TerminalState {
    var committed: bool
    var reason: Reason

    constructor ()
      ensures !committed
    {
      committed, reason := false, CleanupFailure;
    }

    /** Only the first observation counts. */
    method Commit(o: Observation)
      modifies this
      ensures committed
      ensures reason == if old(committed) then old(reason) else Classify(o)
    {
      if committed {
        return;
      }
      committed := true;
      if o.overflowed {
        reason := OutputOverflow;
      } else if o.canceled {
        reason := CallerCancellation;
      } else if o.timedOut {
        reason := SupervisorTimeout;
      } else if o.waited {
        reason := NormalExit;
      } else {
        reason := CleanupFailure;
      }
    }

    method CommitAll(events: seq<Observation>)
      requires !committed && events != []
      modifies this
      ensures committed && reason == Classify(events[0])
    {
      var k := 0;
      while k < |events|
        invariant 0 <= k <= |events|
        invariant committed <==> k > 0
        invariant k > 0 ==> reason == Classify(events[0])
      {
        Commit(events[k]);
        k := k + 1;
      }
    }
  }

  /**
   Every reason stands for its own event, seen with none of those before it: a normal exit for a
   wait with nothing else, a failed cleanup for nothing at all.
   */
  lemma NormalExitMeansNothingElse(o: Observation)
    ensures Classify(o) == OutputOverflow <==> o.overflowed
    ensures Classify(o) == CallerCancellation <==> !o.overflowed && o.canceled
    ensures Classify(o) == SupervisorTimeout <==> !o.overflowed && !o.canceled && o.timedOut
    ensures Classify(o) == NormalExit <==> o == Observation(false, false, false, true)
    ensures Classify(o) == CleanupFailure <==> o == Observation(false, false, false, false)
  {
  }

  // ---- completion channels ----

  datatype WaitError = NoError | ExitStatus(code: int) | OtherError(text: string)

  datatype WaitResult = WaitResult(error: WaitError, exitCode: int)

  datatype Failure = WaitFailure(text: string) | StdoutFailure(text: string) | StderrFailure(text: string)
                   | CloseFailure | Expired

  function UnexpectedWait(e: WaitError): multiset<Failure> {
    if e.OtherError? then multiset{WaitFailure(e.text)} else multiset{}
  }

  /** A channel that delivers one value, at a time of its own choosing. */
  class Channel<T> {
    const payload: T
    var taken: bool

    constructor (payload: T)
      ensures this.payload == payload && !taken
    {
      this.payload, taken := payload, false;
    }

    /** A second receive would block for ever, hence the precondition. */
    method Receive() returns (v: T)
      requires !taken
      modifies this
      ensures taken && v == payload
    {
      v := payload;
      taken := true;
    }
  }

  datatype Channels = Channels(wait: Channel<WaitResult>, writer: Channel<()>,
                               stdout: Channel<Option<string>>, stderr: Channel<Option<string>>)

  function ReaderFailures(stdout: Option<string>, stderr: Option<string>): multiset<Failure> {
    (if stdout.Some? then multiset{StdoutFailure(stdout.value)} else multiset{})
    + (if stderr.Some? then multiset{StderrFailure(stderr.value)} else multiset{})
  }

  class CompletionState {
    const channels: Channels
    var wait: WaitResult
    var waitSeen: bool
    var writerSeen: bool
    var stdoutSeen: bool
    var stderrSeen: bool
    var errs: seq<Failure>

    constructor (channels: Channels)
      ensures this.channels == channels
      ensures !waitSeen && !writerSeen && !stdoutSeen && !stderrSeen && errs == [] && wait == WaitResult(NoError, -1)
    {
      this.channels := channels;
      wait, errs := WaitResult(NoError, -1), [];
      waitSeen, writerSeen, stdoutSeen, stderrSeen := false, false, false, false;
    }

    /** The flags say which channels were received from, and `errs` holds exactly the errors they delivered. */
    ghost predicate Valid()
      reads this, channels.wait, channels.writer, channels.stdout, channels.stderr
    {
      && channels.wait.taken == waitSeen && channels.writer.taken == writerSeen
      && channels.stdout.taken == stdoutSeen && channels.stderr.taken == stderrSeen
      && channels.stdout != channels.stderr
      && (waitSeen ==> wait == channels.wait.payload)
      && multiset(errs) == Expected()
    }

    ghost function Expected(): multiset<Failure>
      reads this
    {
      (if waitSeen then UnexpectedWait(channels.wait.payload.error) else multiset{})
      + ReaderFailures(if stdoutSeen then channels.stdout.payload else None, if stderrSeen then channels.stderr.payload else None)
    }

    predicate Complete()
      reads this
    {
      waitSeen && writerSeen && stdoutSeen && stderrSeen
    }

    ghost function Unseen(): nat
      reads this
    {
      (if waitSeen then 0 else 1) + (if writerSeen then 0 else 1) + (if stdoutSeen then 0 else 1) + (if stderrSeen then 0 else 1)
    }

    method AcceptWait()
      requires Valid() && !waitSeen
      modifies this`wait, this`waitSeen, this`errs, channels.wait
      ensures Valid() && waitSeen
    {
      wait := channels.wait.Receive();
      waitSeen := true;
      if wait.error.OtherError? {
        errs := errs + [WaitFailure(wait.error.text)];
      }
    }

    method AcceptStdout()
      requires Valid() && !stdoutSeen
      modifies this`stdoutSeen, this`errs, channels.stdout
      ensures Valid() && stdoutSeen
    {
      var err := channels.stdout.Receive();
      stdoutSeen := true;
      if err.Some? {
        errs := errs + [StdoutFailure(err.value)];
      }
    }

    method AcceptStderr()
      requires Valid() && !stderrSeen
      modifies this`stderrSeen, this`errs, channels.stderr
      ensures Valid() && stderrSeen
    {
      var err := channels.stderr.Receive();
      stderrSeen := true;
      if err.Some? {
        errs := errs + [StderrFailure(err.value)];
      }
    }

    method AcceptWriter()
      requires Valid() && !writerSeen
      modifies this`writerSeen, channels.writer
      ensures Valid() && writerSeen
    {
      var _ := channels.writer.Receive();
      writerSeen := true;
    }

    /** Takes whichever channel not yet seen is chosen. */
    method AcceptNext()
      requires Valid() && !Complete()
      modifies this, channels.wait, channels.writer, channels.stdout, channels.stderr
      ensures Valid() && Unseen() == old(Unseen()) - 1
    {
      if
      case !waitSeen => AcceptWait();
      case !writerSeen => AcceptWriter();
      case !stdoutSeen => AcceptStdout();
      case !stderrSeen => AcceptStderr();
    }

    /** With the pipe ends closed, the writer and both readers finish. */
    method JoinPipeOwners()
      requires Valid()
      modifies this`writerSeen, this`stdoutSeen, this`stderrSeen, this`errs
      modifies channels.writer, channels.stdout, channels.stderr
      ensures Valid() && writerSeen && stdoutSeen && stderrSeen && waitSeen == old(waitSeen)
    {
      if !writerSeen {
        AcceptWriter();
      }
      if !stdoutSeen {
        AcceptStdout();
      }
      if !stderrSeen {
        AcceptStderr();
      }
    }

    /** The deadline passed: join the pipes, then take the wait or hand it over. */
    method Expire(owner: CompletionOwner) returns (deferred: Option<WaitId>)
      requires Valid()
      modifies this, channels.wait, channels.writer, channels.stdout, channels.stderr, owner
      ensures Valid() && writerSeen && stdoutSeen && stderrSeen
      ensures waitSeen <==> deferred.None?
      ensures owner.Value() == if waitSeen then old(owner.Value()) else old(owner.Value()).Defer()
      ensures deferred.Some? ==> deferred.value == old(owner.next) + 1
    {
      deferred := None;
      JoinPipeOwners();
      if !waitSeen {
        if * {
          AcceptWait();
        } else {
          var id := owner.DeferWait();
          deferred := Some(id);
        }
      }
    }

    /**
     Joins everything, whatever the order of arrival and whenever the deadline passes. The
     process wait is recorded here or handed to `owner`, never both and never neither.
     */
    method Join(owner: CompletionOwner) returns (errors: seq<Failure>, expired: bool, closed: bool, deferred: Option<WaitId>)
      requires Valid()
      modifies this, channels.wait, channels.writer, channels.stdout, channels.stderr, owner
      ensures Valid() && writerSeen && stdoutSeen && stderrSeen
      ensures waitSeen <==> deferred.None?
      ensures owner.Value() == if waitSeen then old(owner.Value()) else old(owner.Value()).Defer()
      ensures deferred.Some? ==> deferred.value == old(owner.next) + 1 && !channels.wait.taken && expired
      ensures multiset(errors) == Expected() + (if expired then DeadlineFailures(closed) else multiset{})
    {
      hide CompletionState.Expected, ReaderFailures, UnexpectedWait;
      deferred, expired, closed := None, false, true;
      while !Complete() && !expired
        invariant Valid()
        invariant !expired ==> owner.Value() == old(owner.Value()) && deferred.None?
        invariant expired ==>
                    && writerSeen && stdoutSeen && stderrSeen && (waitSeen <==> deferred.None?)
                    && owner.Value() == (if waitSeen then old(owner.Value()) else old(owner.Value()).Defer())
                    && (deferred.Some? ==> deferred.value == old(owner.next) + 1)
        decreases !expired, Unseen()
      {
        expired := *;
        if expired {
          closed := *;
          deferred := Expire(owner);
        } else {
          AcceptNext();
        }
      }
      errors := errs;
      if expired {
        errors := errors + (if closed then [] else [CloseFailure]) + [Expired];
      }
    }
  }

  /** What a passed deadline adds: a failed close of the pipe ends, if any, and the deadline itself. */
  function DeadlineFailures(closed: bool): multiset<Failure> {
    if closed then multiset{Expired} else multiset{CloseFailure, Expired}
  }

  /** Cleaning up after a start that could not be verified: the wait is consumed once or handed over once. */
  method BoundedUnverifiedStartCleanup(wait: Channel<WaitResult>, owner: CompletionOwner, closed: bool, killed: bool)
    returns (reaped: bool, errors: seq<Failure>, deferred: Option<WaitId>)
    requires !wait.taken
    modifies wait, owner
    ensures reaped == wait.taken && (reaped <==> deferred.None?)
    ensures owner.Value() == if reaped then old(owner.Value()) else old(owner.Value()).Defer()
    ensures deferred.Some? ==> deferred.value == old(owner.next) + 1
    ensures multiset(errors) == (if closed then multiset{} else multiset{CloseFailure})
                                + (if killed then multiset{} else multiset{WaitFailure("kill")})
                                + (if reaped then UnexpectedWait(wait.payload.error) else multiset{Expired})
  {
    errors := (if closed then [] else [CloseFailure]) + (if killed then [] else [WaitFailure("kill")]);
    reaped := *;
    if !reaped {
      reaped := *;
    }
    deferred := None;
    if reaped {
      var waited := wait.Receive();
      if waited.error.OtherError? {
        errors := errors + [WaitFailure(waited.error.text)];
      }
    } else {
      var id := owner.DeferWait();
      deferred := Some(id);
      errors := errors + [Expired];
    }
  }
}
