/** One request through the gateway: admission, the leased runtime, execution, and the answer. */
module Gateway {
  import opened GatewayOutcome
  import opened Health
  import opened Options
  import opened Version

  type Runtime = nat

  datatype RunReport = RunReport(result: ProcessResult, error: Option<RunError>)

  ghost predicate Balanced(prepared: nat, executed: multiset<Runtime>, discarded: multiset<Runtime>) {
    forall r: Runtime :: executed[r] + discarded[r] == if r < prepared then 1 else 0
  }

  lemma OneMoreHandedOver(prepared: nat, executed: multiset<Runtime>, discarded: multiset<Runtime>)
    requires Balanced(prepared, executed, discarded)
    ensures Balanced(prepared + 1, executed + multiset{prepared}, discarded)
    ensures Balanced(prepared + 1, executed, discarded + multiset{prepared})
  {
  }

  /** The supervisor as the gateway uses it, with a record of where every prepared runtime went. */
  class Supervisor {
    var prepared: nat
    ghost var executed: multiset<Runtime>
    ghost var discarded: multiset<Runtime>

    constructor ()
      ensures prepared == 0 && executed == multiset{} && discarded == multiset{}
    {
      prepared, executed, discarded := 0, multiset{}, multiset{};
    }

    /** Every runtime prepared so far went to exactly one of the two. */
    ghost predicate HandedOver()
      reads this
    {
      Balanced(prepared, executed, discarded)
    }

    method Prepare() returns (r: Option<Runtime>)
      modifies this`prepared
      ensures r.Some? ==> r.value == old(prepared) && prepared == old(prepared) + 1
      ensures r.None? ==> prepared == old(prepared)
    {
      r := None;
      if * {
        r := Some(prepared);
        prepared := prepared + 1;
      }
    }

    /** `report` is what the run will report. */
    method Execute(r: Runtime, report: RunReport) returns (result: ProcessResult, error: Option<RunError>)
      modifies this`executed
      ensures executed == old(executed) + multiset{r} && result == report.result && error == report.error
    {
      executed := executed + multiset{r};
      result, error := report.result, report.error;
    }

    method Discard(r: Runtime) returns (ok: bool)
      modifies this`discarded
      ensures discarded == old(discarded) + multiset{r}
    {
      discarded := discarded + multiset{r};
      ok := *;
    }
  }

  // ---- live health ----

  datatype Listed = Initial(problem: Problem) | RuntimeCleanupFailed

  /** In text order the failed cleanup stands between the executable and the version problems. */
  function ListedRank(p: Listed): nat {
    match p
    case Initial(problem) => 2 * ProblemRank(problem)
    case RuntimeCleanupFailed => 15
  }

  predicate SortedListed(problems: seq<Listed>) {
    forall i :: 0 < i < |problems| ==> ListedRank(problems[i - 1]) < ListedRank(problems[i])
  }

  function AsListed(p: LiveProblem): Option<Listed> {
    match p
    case NoProblem => None
    case LiveExecutableMissing => Some(Initial(ExecutableMissing))
    case LiveExecutableUnsafe => Some(Initial(ExecutableUnsafe))
    case LiveRuntimeCleanup => Some(RuntimeCleanupFailed)
  }

  /** How a live problem shows in the list. */
  ghost predicate ListedAs(p: LiveProblem, q: Listed) {
    || (p == LiveExecutableMissing && q == Initial(ExecutableMissing))
    || (p == LiveExecutableUnsafe && q == Initial(ExecutableUnsafe))
    || (p == LiveRuntimeCleanup && q == RuntimeCleanupFailed)
  }

  /** A credible run reports an error that is evidence of the listed problem. */
  ghost predicate Lists(report: RunReport, q: Listed) {
    && Credible(report.result, report.error) && report.error != None
    && exists p :: EvidenceOf(report.error.value, p) && ListedAs(p, q)
  }

  /** Sorted insertion without duplicates. */
  function Enlist(problems: seq<Listed>, p: Listed): seq<Listed> {
    if problems == [] then [p]
    else if p == problems[0] then problems
    else if ListedRank(p) < ListedRank(problems[0]) then [p] + problems
    else [problems[0]] + Enlist(problems[1..], p)
  }

  lemma {:induction false} EnlistAdds(problems: seq<Listed>, p: Listed)
    ensures forall q :: q in Enlist(problems, p) <==> q == p || q in problems
  {
    if problems != [] {
      EnlistAdds(problems[1..], p);
      assert problems == [problems[0]] + problems[1..];
    }
  }

  lemma {:induction false} EnlistKeepsSorted(problems: seq<Listed>, p: Listed)
    requires SortedListed(problems)
    requires forall q <- problems :: ListedRank(q) == ListedRank(p) ==> q == p
    ensures SortedListed(Enlist(problems, p))
  {
    hide ListedRank;
    if problems != [] && p != problems[0] {
      assert problems[0] in problems;
      if ListedRank(p) >= ListedRank(problems[0]) {
        var tail := problems[1..];
        EnlistKeepsSorted(tail, p);
        EnlistAdds(tail, p);
        RankGrows(problems);
        var rest := Enlist(tail, p);
        assert rest[0] in rest;
        assert ListedRank(problems[0]) < ListedRank(rest[0]);
        PrependSorted(problems[0], rest);
      } else {
        PrependSorted(p, problems);
      }
    }
  }

  lemma PrependSorted(p: Listed, rest: seq<Listed>)
    requires SortedListed(rest) && (rest != [] ==> ListedRank(p) < ListedRank(rest[0]))
    ensures SortedListed([p] + rest)
  {
  }

  lemma {:induction false} RankGrows(problems: seq<Listed>)
    requires SortedListed(problems) && problems != []
    ensures forall q <- problems[1..] :: ListedRank(problems[0]) < ListedRank(q)
  {
    if |problems| > 1 {
      RankGrows(problems[1..]);
      assert problems[1..] == [problems[1]] + problems[2..];
    }
  }

  class ProviderRuntime {
    const name: Name
    const version: string
    var status: Status
    var problems: seq<Listed>

    constructor (name: Name, version: string, status: Status, problems: seq<Listed>)
      ensures this.name == name && this.version == version && this.status == status && this.problems == problems
    {
      this.name, this.version, this.status, this.problems := name, version, status, problems;
    }

    ghost predicate Valid()
      reads this
    {
      && !name.OtherName? && IsCanonicalVersion(version) && SortedListed(problems)
      && forall p <- problems :: p.Initial? ==> !p.problem.OtherProblem?
    }

    method Degrade(problem: LiveProblem)
      requires Valid()
      modifies this`status, this`problems
      ensures Valid()
      ensures problem.NoProblem? ==> status == old(status) && problems == old(problems)
      ensures !problem.NoProblem? ==>
                status.NotReady? && forall q :: q in problems <==> q in old(problems) || ListedAs(problem, q)
    {
      if problem.NoProblem? {
        return;
      }
      RanksDiffer(problems, AsListed(problem).value);
      EnlistKeepsSorted(problems, AsListed(problem).value);
      EnlistAdds(problems, AsListed(problem).value);
      status := NotReady;
      problems := Enlist(problems, AsListed(problem).value);
    }
  }

  /** The problem an error is classified with is the one it is evidence of. */
  lemma ListedForEvidence(report: RunReport, end: RequestEnd, closing: bool)
    requires Credible(report.result, report.error) && report.error.Some?
    ensures var classified := ClassifyExecutionError(end, closing, report.error.value);
            && (classified.None? ==> forall q :: !Lists(report, q))
            && (classified.Some? ==>
                  && (forall q :: Lists(report, q) <==> ListedAs(classified.value.problem, q))
                  && ((exists q :: Lists(report, q)) <==> classified.value.problem != NoProblem))
  {
    ExecutionClassified(end, closing, report.error.value);
    hide Credible, ExecutionMeans;
    assert ListedAs(LiveExecutableMissing, Initial(ExecutableMissing)) && ListedAs(LiveExecutableUnsafe, Initial(ExecutableUnsafe))
           && ListedAs(LiveRuntimeCleanup, RuntimeCleanupFailed);
  }

  lemma ReportApplied(before: Meta, report: RunReport)
    requires ValidMeta(before)
    ensures var applied := ApplyProcessMetadata(before, report.result, report.error);
            && (applied.Some? <==> Credible(report.result, report.error))
            && (applied.Some? ==> ValidMeta(applied.value) && Recorded(before, report.result, report.error, false, applied.value))
    ensures !Credible(report.result, report.error) || report.error.None? ==> forall q :: !Lists(report, q)
  {
    AppliedIsValid(before, report.result, report.error);
    var applied := ApplyProcessMetadata(before, report.result, report.error);
    AppliedIsRecorded(before, report.result, report.error, if applied.Some? then applied.value else before);
  }

  /** What is recorded of a run that failed. */
  lemma FailedRun(before: Meta, applied: Meta, end: RequestEnd, closing: bool, report: RunReport)
    requires ValidMeta(applied) && Credible(report.result, report.error) && report.error.Some?
    requires ApplyProcessMetadata(before, report.result, report.error) == Some(applied)
    ensures var error := report.error.value;
            var classified := ClassifyExecutionError(end, closing, error);
            if classified == None
            then (forall c :: !ExecutionMeans(end, closing, error, c)) && forall q :: !Lists(report, q)
            else
              var cause, problem := classified.value.cause, classified.value.problem;
              var meta := NormalizeShutdown(applied, true, cause);
              && ExecutionMeans(end, closing, error, cause) && (forall c | ExecutionMeans(end, closing, error, c) :: c == cause)
              && ValidMeta(meta) && SafeCause(cause) && WorkCause(cause)
              && Recorded(before, report.result, report.error, cause == Api(ServiceShuttingDown), meta)
              && (forall q :: Lists(report, q) <==> ListedAs(problem, q)) && ((exists q :: Lists(report, q)) <==> problem != NoProblem)
              && (cause == Api(ProcessCleanupFailed) ==> meta.exitCategory == "cleanup_failed" && problem != NoProblem)
  {
    var error := report.error.value;
    ListedForEvidence(report, end, closing);
    ExecutionClassified(end, closing, error);
    AppliedIsRecorded(before, report.result, report.error, applied);
    var classified := ClassifyExecutionError(end, closing, error);
    if classified.Some? {
      var cause := classified.value.cause;
      CleanupIsConsistent(before, report.result, end, closing, error);
      ClassifiedIsSafe(end, closing, error, UnknownError, OtherScheduleError);
      CausesOfWork(end, closing, error, UnknownError);
      NormalizedIsValid(applied, true, cause);
      NormalizedExit(applied, true, cause);
      NormalizedIsRecorded(before, report.result, report.error, applied, cause);
      hide ClassifyExecutionError, ValidMeta, ApplyProcessMetadata, NormalizeShutdown, Recorded, Credible, ExecutionMeans, Lists, EvidenceOf, ListedAs;
    }
  }

  lemma RanksDiffer(problems: seq<Listed>, p: Listed)
    requires forall q <- problems :: q.Initial? ==> !q.problem.OtherProblem?
    requires p.Initial? ==> !p.problem.OtherProblem?
    ensures forall q <- problems :: ListedRank(q) == ListedRank(p) ==> q == p
  {
  }

  /** The metadata of an attempt before the scheduler is asked. */
  function InitialMeta(row: Row, queued: int, running: int): Meta {
    Meta(row.name, 0, 0, queued, running, 0, 0, row.version, "", "", "")
  }

  function AsListedProblems(problems: seq<Problem>): seq<Listed> {
    seq(|problems|, i requires 0 <= i < |problems| => Initial(problems[i]))
  }

  /** A provider row accepted when the gateway started gives every request valid state to begin with. */
  method Begin(identifier: char -> bool, row: Row, interval: Range, queued: int, queuedBytes: int, running: int)
    returns (attempt: Option<Attempt>, runtime: ProviderRuntime)
    requires GatewayAccepts(identifier, row, interval)
    ensures fresh(runtime) && runtime.Valid() && runtime.name == row.name && runtime.version == row.version
    ensures attempt.Some? <==> row.status.Ready? && queued >= 0 && queuedBytes >= 0 && running >= 0
    ensures attempt.Some? ==>
              && fresh(attempt.value) && attempt.value.Valid()
              && attempt.value.meta == Meta(row.name, 0, 0, queued, running, 0, 0, row.version, "", "", "")
              && !attempt.value.admitted && !attempt.value.success && !attempt.value.broken && attempt.value.cause.None?
  {
    hide IsCanonicalVersion, GatewayProof, GatewayPreprobe, GatewayAuth;
    AcceptedRowStartsValid(row, queued, running);
    runtime := new ProviderRuntime(row.name, row.version, row.status, AsListedProblems(row.problems));
    attempt := None;
    if row.status.Ready? && queued >= 0 && queuedBytes >= 0 && running >= 0 {
      var started := new Attempt(InitialMeta(row, queued, running));
      attempt := Some(started);
    }
  }

  lemma AcceptedRowStartsValid(row: Row, queued: int, running: int)
    requires !row.name.OtherName? && IsCanonicalVersion(row.version) && SortedProblems(row.problems)
    requires forall p <- row.problems :: StartupProblemAllowed(row.name, p)
    ensures queued >= 0 && running >= 0 ==> ValidMeta(InitialMeta(row, queued, running))
    ensures SortedListed(AsListedProblems(row.problems))
    ensures forall p <- AsListedProblems(row.problems) :: p.Initial? && !p.problem.OtherProblem?
  {
    hide IsCanonicalVersion;
    assert "" in EXIT_CATEGORIES && "" in STOP_REASONS && "" in STOP_ACTIONS;
    var listed := AsListedProblems(row.problems);
    forall p <- listed
      ensures p.Initial? && !p.problem.OtherProblem?
    {
      var i :| 0 <= i < |listed| && listed[i] == p;
      assert row.problems[i] in row.problems;
    }
    forall i | 0 < i < |listed|
      ensures ListedRank(listed[i - 1]) < ListedRank(listed[i])
    {
      assert ProblemRank(row.problems[i - 1]) < ProblemRank(row.problems[i]);
    }
  }

  // ---- one attempt ----

  class Attempt {
    var admitted: bool
    var success: bool
    var broken: bool
    var cause: Option<Cause>
    var meta: Meta

    constructor (meta: Meta)
      ensures !admitted && !success && !broken && cause == None && this.meta == meta
    {
      admitted, success, broken, cause, this.meta := false, false, false, None, meta;
    }

    ghost predicate Valid()
      reads this
    {
      ValidMeta(meta) && (cause.Some? ==> SafeCause(cause.value) && WorkCause(cause.value))
    }

    method CleanupFailed()
      requires Valid()
      modifies this
      ensures Valid() && cause == Some(Api(ProcessCleanupFailed)) && meta.exitCategory == "cleanup_failed"
      ensures admitted == old(admitted) && success == old(success) && broken == old(broken)
    {
      CleanupTextsAreValid();
      cause := Some(Api(ProcessCleanupFailed));
      meta := meta.(exitCategory := "cleanup_failed", stopReason := "cleanup_failed", stopAction := "none");
    }
  }

  lemma CleanupTextsAreValid()
    ensures "cleanup_failed" in EXIT_CATEGORIES && "cleanup_failed" in STOP_REASONS && "none" in STOP_ACTIONS
  {
  }

  /** How the work ended: normally, with its own error, or in a panic of an adapter. */
  datatype WorkEnd = Done | Stopped | Panicked

  /** Every answer one run of the work gets from outside. */
  datatype WorkAnswers = WorkAnswers(started: int, ended: int, idValid: bool, built: bool, panicked: bool,
                                     report: RunReport, reading: Reading, end: RequestEnd, closing: bool)

  class Request {
    const attempt: Attempt
    const runtime: ProviderRuntime
    const supervisor: Supervisor
    const finalBytes: nat

    constructor (attempt: Attempt, runtime: ProviderRuntime, supervisor: Supervisor, finalBytes: nat)
      ensures this.attempt == attempt && this.runtime == runtime && this.supervisor == supervisor && this.finalBytes == finalBytes
    {
      this.attempt, this.runtime, this.supervisor, this.finalBytes := attempt, runtime, supervisor, finalBytes;
    }

    ghost predicate Valid()
      reads this, attempt, runtime, supervisor
    {
      attempt.Valid() && runtime.Valid() && supervisor.HandedOver()
    }

    /** The execution of a built command and the judgement of its result. */
    method ExecuteBuilt(r: Runtime, end: RequestEnd, closing: bool, report: RunReport, reading: Reading) returns (done: WorkEnd)
      requires attempt.Valid() && runtime.Valid()
      modifies attempt, runtime`status, runtime`problems, supervisor`executed
      ensures attempt.Valid() && runtime.Valid()
      ensures supervisor.executed == old(supervisor.executed) + multiset{r}
      ensures attempt.admitted == old(attempt.admitted) && (old(attempt.broken) ==> attempt.broken)
      ensures !done.Done? ==> attempt.success == old(attempt.success)
      // a run whose report cannot be, or whose error nobody can classify, breaks the attempt
      ensures !Credible(report.result, report.error) ==> done.Stopped? && attempt.broken && attempt.cause == old(attempt.cause)
      ensures Credible(report.result, report.error) && report.error.None? ==>
                && Recorded(old(attempt.meta), report.result, None, false, attempt.meta)
                && JudgedAs(Judged(report.result.exitCode, finalBytes, reading), done)
      ensures Credible(report.result, report.error) && report.error.Some? ==>
                && done.Stopped?
                && (forall c | ExecutionMeans(end, closing, report.error.value, c) ::
                      && attempt.cause == Some(c) && attempt.broken == old(attempt.broken)
                      && Recorded(old(attempt.meta), report.result, report.error, c == Api(ServiceShuttingDown), attempt.meta))
                && ((forall c :: !ExecutionMeans(end, closing, report.error.value, c)) ==> attempt.broken && attempt.cause == old(attempt.cause))
      // the provider is no longer ready exactly for the errors that are evidence of a live problem
      ensures forall q :: q in runtime.problems <==> q in old(runtime.problems) || Lists(report, q)
      ensures runtime.status == if exists q :: Lists(report, q) then NotReady else old(runtime.status)
      ensures attempt.cause == Some(Api(ProcessCleanupFailed)) && old(attempt.cause).None? ==>
                attempt.meta.exitCategory == "cleanup_failed" && runtime.status.NotReady?
    {
      done := Stopped;
      ghost var before := attempt.meta;
      ReportApplied(before, report);
      hide ValidMeta, ApplyProcessMetadata, IsCanonicalVersion, SortedListed, Judged, Recorded, Credible, ListedAs, Lists, ExecutionMeans,
           EvidenceOf, SafeCause, WorkCause;
      var result, error := supervisor.Execute(r, report);
      var meta := ApplyProcessMetadata(attempt.meta, result, error);
      if meta.None? {
        attempt.broken := true;
        return;
      }
      attempt.meta := meta.value;
      if error.Some? {
        FailRun(before, meta.value, end, closing, report);
        return;
      }
      done := JudgeResult(result, reading);
    }

    /** A run that reported an error: it is classified, or breaks the attempt. */
    method FailRun(ghost before: Meta, applied: Meta, end: RequestEnd, closing: bool, report: RunReport)
      requires attempt.Valid() && runtime.Valid() && attempt.meta == applied && Credible(report.result, report.error)
      requires report.error.Some? && ApplyProcessMetadata(before, report.result, report.error) == Some(applied)
      modifies attempt, runtime`status, runtime`problems
      ensures attempt.Valid() && runtime.Valid()
      ensures attempt.admitted == old(attempt.admitted) && attempt.success == old(attempt.success) && (old(attempt.broken) ==> attempt.broken)
      ensures forall c | ExecutionMeans(end, closing, report.error.value, c) ::
                && attempt.cause == Some(c) && attempt.broken == old(attempt.broken)
                && Recorded(before, report.result, report.error, c == Api(ServiceShuttingDown), attempt.meta)
      ensures (forall c :: !ExecutionMeans(end, closing, report.error.value, c)) ==> attempt.broken && attempt.cause == old(attempt.cause)
      ensures forall q :: q in runtime.problems <==> q in old(runtime.problems) || Lists(report, q)
      ensures runtime.status == if exists q :: Lists(report, q) then NotReady else old(runtime.status)
      ensures attempt.cause == Some(Api(ProcessCleanupFailed)) && old(attempt.cause).None? ==>
                attempt.meta.exitCategory == "cleanup_failed" && runtime.status.NotReady?
    {
      FailedRun(before, applied, end, closing, report);
      hide ClassifyExecutionError, ValidMeta, ApplyProcessMetadata, NormalizeShutdown, IsCanonicalVersion, SortedListed, Recorded, Credible,
           ExecutionMeans, EvidenceOf, Lists;
      var classified := ClassifyExecutionError(end, closing, report.error.value);
      if classified.None? {
        attempt.broken := true;
        return;
      }
      runtime.Degrade(classified.value.problem);
      attempt.meta := NormalizeShutdown(applied, true, classified.value.cause);
      attempt.cause := Some(classified.value.cause);
    }

    /** The attempt and the end of the work say what the judgement was, and change nothing else. */
    twostate predicate JudgedAs(ending: Ending, done: WorkEnd)
      reads attempt
    {
      match ending
      case Accepted => done.Done? && attempt.success && attempt.cause == old(attempt.cause) && attempt.broken == old(attempt.broken)
      case Refused(c) =>
        done.Stopped? && attempt.cause == Some(c) && attempt.success == old(attempt.success) && attempt.broken == old(attempt.broken)
      case Unclassified =>
        done.Stopped? && attempt.broken && attempt.cause == old(attempt.cause) && attempt.success == old(attempt.success)
      case AdapterPanicked =>
        done.Panicked? && attempt.cause == old(attempt.cause) && attempt.success == old(attempt.success)
        && attempt.broken == old(attempt.broken)
    }

    /** The adapter's reading of a finished run and the checks on the final text. */
    method JudgeResult(result: ProcessResult, reading: Reading) returns (done: WorkEnd)
      requires attempt.Valid()
      modifies attempt`cause, attempt`broken, attempt`success
      ensures attempt.Valid() && JudgedAs(Judged(result.exitCode, finalBytes, reading), done)
      ensures attempt.cause == old(attempt.cause) || attempt.cause != Some(Api(ProcessCleanupFailed))
    {
      hide ValidMeta, IsCanonicalVersion;
      done := Stopped;
      if reading.panicked {
        return Panicked;
      }
      if reading.parseError.Some? {
        CausesOfWork(StillOpen, false, Untyped, reading.parseError.value);
        var cause := ClassifyProviderError(reading.parseError.value);
        if cause.None? {
          attempt.broken := true;
        } else {
          attempt.cause := cause;
        }
        return;
      }
      if result.exitCode != 0 {
        attempt.cause := Some(Api(ProviderFailed));
      } else if reading.size > finalBytes {
        attempt.cause := Some(Api(OutputLimitExceeded));
      } else if reading.size == 0 || !reading.text {
        attempt.cause := Some(Api(ProviderProtocolError));
      } else if !reading.structured {
        attempt.cause := Some(Api(StructuredOutputInvalid));
      } else {
        attempt.success := true;
        done := Done;
      }
    }

    /** What happens between the two time stamps; a runtime that is not executed is discarded on the way out. */
    method Leased(w: WorkAnswers) returns (done: WorkEnd)
      requires Valid()
      modifies attempt, runtime`status, runtime`problems, supervisor
      ensures Valid() && attempt.admitted == old(attempt.admitted)
      ensures done.Done? ==> attempt.success
      ensures !done.Done? ==> attempt.success == old(attempt.success)
      ensures !old(runtime.status).Ready? ==> attempt.cause == Some(Api(ProviderNotReady))
      ensures !old(runtime.status).Ready? || !w.idValid ==> supervisor.prepared == old(supervisor.prepared)
      ensures supervisor.prepared > old(supervisor.prepared) ==>
                if w.built && !w.panicked then supervisor.executed == old(supervisor.executed) + multiset{old(supervisor.prepared)}
                else supervisor.discarded == old(supervisor.discarded) + multiset{old(supervisor.prepared)}
      ensures attempt.cause == Some(Api(ProcessCleanupFailed)) && old(attempt.cause).None? ==>
                attempt.meta.exitCategory == "cleanup_failed" && runtime.status.NotReady?
    {
      hide ValidMeta, IsCanonicalVersion, SortedListed, Judged, ApplyProcessMetadata, ClassifyExecutionError, NormalizeShutdown, Balanced;
      OneMoreHandedOver(supervisor.prepared, supervisor.executed, supervisor.discarded);
      done := Stopped;
      if !runtime.status.Ready? {
        attempt.cause := Some(Api(ProviderNotReady));
        return;
      }
      if !w.idValid {
        attempt.broken := true;
        return;
      }
      var prepared := supervisor.Prepare();
      if prepared.None? {
        runtime.Degrade(LiveRuntimeCleanup);
        attempt.CleanupFailed();
        return;
      }
      var r := prepared.value;
      if w.built && !w.panicked {
        done := ExecuteBuilt(r, w.end, w.closing, w.report, w.reading);
        return;
      }
      done := if w.panicked then Panicked else Stopped;
      if !w.panicked {
        attempt.broken := true;
      }
      DiscardUnused(r);
    }

    method DiscardUnused(r: Runtime)
      requires attempt.Valid() && runtime.Valid()
      modifies attempt, runtime`status, runtime`problems, supervisor`discarded
      ensures attempt.Valid() && runtime.Valid()
      ensures supervisor.discarded == old(supervisor.discarded) + multiset{r}
      ensures attempt.admitted == old(attempt.admitted) && attempt.success == old(attempt.success)
      ensures attempt.cause == old(attempt.cause) ||
              (attempt.cause == Some(Api(ProcessCleanupFailed)) && !attempt.broken
               && attempt.meta.exitCategory == "cleanup_failed" && runtime.status.NotReady?)
    {
      var ok := supervisor.Discard(r);
      if !ok {
        runtime.Degrade(LiveRuntimeCleanup);
        attempt.broken := false;
        attempt.CleanupFailed();
      }
    }

    /** The work given to the scheduler. */
    method Work(w: WorkAnswers, queueStarted: int) returns (done: WorkEnd)
      requires Valid()
      modifies attempt, runtime`status, runtime`problems, supervisor
      ensures Valid() && attempt.admitted
      ensures w.started < queueStarted || w.ended < w.started ==> attempt.broken
      ensures queueStarted <= w.started <= w.ended ==> attempt.meta.executionTime == w.ended - w.started
      ensures done.Done? && !attempt.broken ==> attempt.success
      ensures !done.Done? ==> attempt.success == old(attempt.success)
      ensures attempt.cause == Some(Api(ProcessCleanupFailed)) && old(attempt.cause).None? ==>
                attempt.meta.exitCategory == "cleanup_failed" && runtime.status.NotReady?
    {
      hide Balanced, SortedListed, IsCanonicalVersion;
      attempt.admitted := true;
      if w.started < queueStarted {
        attempt.broken := true;
        return Stopped;
      }
      attempt.meta := attempt.meta.(queueDuration := w.started - queueStarted);
      done := Leased(w);
      if w.ended < w.started {
        attempt.broken := true;
      } else {
        attempt.meta := attempt.meta.(executionTime := w.ended - w.started);
      }
    }

    /**
     Schedules the work and answers. The scheduler may run the work any number of times and
     return anything, `returned`. Every prepared runtime is executed or discarded exactly
     once, and the answer is the one that the attempt and the scheduler's error call for.
     */
    method Respond(end: RequestEnd, closing: bool, queueStarted: int)
      returns (answer: Answer, ghost returned: Option<ScheduleError>)
      requires Valid() && !attempt.admitted && !attempt.success && !attempt.broken && attempt.cause.None?
      modifies attempt, runtime`status, runtime`problems, supervisor
      ensures runtime.Valid() && supervisor.HandedOver()
      ensures Concluded(end, closing, returned, answer) && ToldApart(end, closing, returned, answer)
    {
      var scheduleError: Option<ScheduleError> := *;
      var runs: nat := *;
      while runs > 0
        invariant Valid()
      {
        var w: WorkAnswers := *;
        var _ := Work(w, queueStarted);
        runs := runs - 1;
      }
      returned := scheduleError;
      answer := Conclude(end, closing, queueStarted, scheduleError);
    }

    /** The answer to a finished attempt. */
    ghost predicate Concluded(end: RequestEnd, closing: bool, scheduleError: Option<ScheduleError>, answer: Answer)
      reads attempt
    {
      && (answer.Success? ==> Exposable(ContextCanceled, answer.meta))
      && (answer.Outcome? ==> Exposable(answer.cause, answer.meta))
      && (attempt.broken ==> answer == Internal)
      && (!attempt.broken ==>
            match scheduleError
            case None => answer == if attempt.success && attempt.cause == None then Success(attempt.meta) else Internal
            case Some(e) =>
              && (forall c | SchedulerMeans(end, closing, e, c) :: QueueAnswer(c, answer))
              && ((forall c :: !SchedulerMeans(end, closing, e, c)) ==>
                    answer == if attempt.cause != None && (e == WorkError || attempt.cause == Some(Api(ProcessCleanupFailed)))
                              then Outcome(attempt.cause.value, attempt.meta) else Internal))
    }

    /** The answer for a cause of the scheduler's: with the stop it means for a run, or the time spent in the queue. */
    ghost predicate QueueAnswer(c: Cause, answer: Answer)
      reads attempt
    {
      if attempt.admitted
      then answer == Outcome(c, attempt.meta.(stopReason := if c == Api(ServiceShuttingDown) then "gateway_shutdown" else attempt.meta.stopReason))
      else answer == Internal || (answer.Outcome? && answer == Outcome(c, attempt.meta.(queueDuration := answer.meta.queueDuration)))
    }

    /** The causes of the queue tell its errors apart: each is answered for its own error and for no other. */
    ghost predicate ToldApart(end: RequestEnd, closing: bool, scheduleError: Option<ScheduleError>, answer: Answer) {
      answer.Outcome? ==>
        && (answer.cause == Api(QueueFull) <==> scheduleError == Some(SchedulerQueueFull))
        && (answer.cause == Api(QueueTimeout) <==> scheduleError == Some(SchedulerQueueTimeout))
        && (scheduleError == Some(SchedulerShuttingDown) ==> answer.cause == Api(ServiceShuttingDown))
        && (scheduleError == Some(SchedulerCanceled) && answer.cause != Api(ProcessCleanupFailed) ==>
              && (answer.cause == Api(ServiceShuttingDown) <==> closing)
              && (answer.cause == ContextCanceled <==> !closing && end == EndedCanceled)
              && (answer.cause == ContextDeadline <==> !closing && end == EndedDeadline))
    }

    /** The scheduler's own cause, with the metadata of a run it stopped or of the time in the queue. */
    method AnswerForQueue(c: Cause, queueStarted: int) returns (answer: Answer)
      requires Valid() && SafeCause(c)
      ensures QueueAnswer(c, answer) && (answer.Outcome? ==> Exposable(c, answer.meta))
    {
      var meta := attempt.meta;
      if !attempt.admitted {
        var ended: int := *;
        if ended < queueStarted {
          return Internal;
        }
        meta := meta.(queueDuration := ended - queueStarted);
      }
      NormalizedIsValid(meta, attempt.admitted, c);
      OutcomeIs(c, NormalizeShutdown(meta, attempt.admitted, c));
      hide Exposable;
      return OutcomeOrInternal(c, NormalizeShutdown(meta, attempt.admitted, c));
    }

    method Conclude(end: RequestEnd, closing: bool, queueStarted: int, scheduleError: Option<ScheduleError>) returns (answer: Answer)
      requires Valid()
      ensures Concluded(end, closing, scheduleError, answer) && ToldApart(end, closing, scheduleError, answer)
    {
      OutcomeIs(ContextCanceled, attempt.meta);
      hide ValidMeta, QueueAnswer, Exposable;
      if attempt.broken {
        return Internal;
      }
      match scheduleError {
        case None =>
          return if !attempt.success || attempt.cause.Some? || !ValidMeta(attempt.meta) then Internal else Success(attempt.meta);
        case Some(e) =>
          answer := AnswerForError(end, closing, queueStarted, e);
          ApartIfConcluded(end, closing, e, answer);
      }
    }

    lemma ApartIfConcluded(end: RequestEnd, closing: bool, e: ScheduleError, answer: Answer)
      requires Valid() && !attempt.broken && Concluded(end, closing, Some(e), answer)
      ensures ToldApart(end, closing, Some(e), answer)
    {
      SchedulerClassified(end, closing, e);
      hide ValidMeta, Exposable;
      var known := ClassifySchedulerError(end, closing, e);
      assert known.Some? ==> SchedulerMeans(end, closing, e, known.value);
    }

    method AnswerForError(end: RequestEnd, closing: bool, queueStarted: int, e: ScheduleError) returns (answer: Answer)
      requires Valid() && !attempt.broken
      ensures Concluded(end, closing, Some(e), answer)
    {
      ClassifiedIsSafe(end, closing, Untyped, UnknownError, e);
      SchedulerClassified(end, closing, e);
      var known := ClassifySchedulerError(end, closing, e);
      hide ValidMeta, Exposable, SafeCause;
      if known.Some? {
        assert SchedulerMeans(end, closing, e, known.value);
        answer := AnswerForQueue(known.value, queueStarted);
      } else {
        answer := AnswerForWork(e);
      }
    }

    /** The cause the work recorded, if the error is the work's own or a cleanup has failed. */
    method AnswerForWork(e: ScheduleError) returns (answer: Answer)
      requires Valid()
      ensures answer == if attempt.cause != None && (e == WorkError || attempt.cause == Some(Api(ProcessCleanupFailed)))
                        then Outcome(attempt.cause.value, attempt.meta) else Internal
      ensures answer.Outcome? ==> Exposable(answer.cause, answer.meta)
    {
      if attempt.cause == Some(Api(ProcessCleanupFailed)) {
        OutcomeIs(attempt.cause.value, attempt.meta);
        return OutcomeOrInternal(attempt.cause.value, attempt.meta);
      }
      if !e.WorkError? || attempt.cause.None? {
        return Internal;
      }
      OutcomeIs(attempt.cause.value, attempt.meta);
      return OutcomeOrInternal(attempt.cause.value, attempt.meta);
    }
  }

  function OutcomeOrInternal(cause: Cause, meta: Meta): (answer: Answer)
    ensures answer == if Exposable(cause, meta) then Outcome(cause, meta) else Internal
  {
    OutcomeIs(cause, meta);
    var outcome := NewOutcomeError(cause, meta);
    if outcome.Some? then outcome.value else Internal
  }
}
