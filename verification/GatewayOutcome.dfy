/** Safe causes, execution metadata, and the closed classification of everything that can go wrong. */
module GatewayOutcome {
  import opened Health
  import opened Options
  import opened Version

  datatype ApiCode = ServiceShuttingDown | ModelNotFound | InvalidJsonSchema | ProviderNotReady | ProcessCleanupFailed
                   | ProviderTimeout | OutputLimitExceeded | ProviderFailed | ProviderAuthRequired | ProviderRateLimited
                   | ProviderProtocolError | StructuredOutputInvalid | QueueFull | QueueTimeout | InternalError

  /** Only the canonical API errors and the two context causes are safe to expose. */
  datatype Cause = Api(code: ApiCode) | ContextCanceled | ContextDeadline | Opaque(text: string)

  datatype Meta = Meta(provider: Name, stdoutBytes: int, stderrBytes: int, queueDepth: int, runningCount: int,
                       queueDuration: int, executionTime: int, version: string, exitCategory: string,
                       stopReason: string, stopAction: string)

  const EXIT_CATEGORIES := {"", "completed", "nonzero_exit", "start_failed", "canceled", "timeout", "output_limit", "cleanup_failed"}

  const STOP_REASONS := {"", "completed", "client_canceled", "gateway_shutdown", "execution_timeout", "output_limit", "cleanup_failed"}

  const STOP_ACTIONS := {"", "none", "term", "kill", "terminate_job"}

  predicate SafeCause(cause: Cause) {
    !cause.Opaque?
  }

  predicate ValidMeta(m: Meta) {
    && m.stdoutBytes >= 0 && m.stderrBytes >= 0 && m.queueDepth >= 0 && m.runningCount >= 0
    && m.queueDuration >= 0 && m.executionTime >= 0 && !m.provider.OtherName?
    && IsCanonicalVersion(m.version)
    && m.exitCategory in EXIT_CATEGORIES && m.stopReason in STOP_REASONS && m.stopAction in STOP_ACTIONS
  }

  /** What a request is answered with. */
  datatype Answer = Success(meta: Meta) | Outcome(cause: Cause, meta: Meta) | Public(code: ApiCode) | Internal

  function NewOutcomeError(cause: Cause, meta: Meta): Option<Answer> {
    if SafeCause(cause) && ValidMeta(meta) then Some(Outcome(cause, meta)) else None
  }

  // ---- what a process run reports ----

  datatype StopReason = StoppedNormally | StoppedByCaller | StoppedByTimeout | StoppedByOverflow | StoppedByCleanup | OtherReason

  datatype StopAction = NoAction | TermAction | KillAction | JobAction | OtherAction

  datatype ProcessResult = ProcessResult(stdout: nat, stderr: nat, stdoutTotal: int, stderrTotal: int, exitCode: int,
                                         reason: StopReason, action: StopAction)

  datatype RunKind = RunCanceled | RunTimeout | RunOutputLimit | RunCleanup | RunStart | RunOther

  /** An execution error; `untyped` ones are not run errors at all. */
  datatype RunError = Untyped | Run(kind: RunKind, unavailable: bool, notExist: bool, permission: bool)

  function ReasonText(r: StopReason): string {
    match r
    case StoppedNormally => "completed"
    case StoppedByCaller => "client_canceled"
    case StoppedByTimeout => "execution_timeout"
    case StoppedByOverflow => "output_limit"
    case StoppedByCleanup => "cleanup_failed"
    case OtherReason => ""
  }

  function ActionText(a: StopAction): string {
    match a
    case NoAction => "none"
    case TermAction => "term"
    case KillAction => "kill"
    case JobAction => "terminate_job"
    case OtherAction => ""
  }

  function ExitText(k: RunKind): string {
    match k
    case RunCanceled => "canceled"
    case RunTimeout => "timeout"
    case RunOutputLimit => "output_limit"
    case RunStart => "start_failed"
    case RunCleanup => "cleanup_failed"
    case RunOther => ""
  }

  /**
   What may be exposed: a canonical cause, counts and durations that are not negative, a known
   provider, a canonical version, and texts that stand for something a run reports.
   */
  ghost predicate Exposable(cause: Cause, m: Meta) {
    && (cause in {ContextCanceled, ContextDeadline} || exists code :: cause == Api(code))
    && (forall n <- [m.stdoutBytes, m.stderrBytes, m.queueDepth, m.runningCount, m.queueDuration, m.executionTime] :: 0 <= n)
    && m.provider in {Claude, Codex, Gemini}
    && (m.version == "" || (|m.version| <= 32 && exists v: Triple :: v.Fits() && v.Text() == m.version))
    && (m.exitCategory in {"", "completed", "nonzero_exit"} || exists k :: ExitText(k) == m.exitCategory)
    && (m.stopReason in {"", "gateway_shutdown"} || exists r :: ReasonText(r) == m.stopReason)
    && (m.stopAction == "" || exists a :: ActionText(a) == m.stopAction)
  }

  lemma OutcomeIs(cause: Cause, m: Meta)
    ensures NewOutcomeError(cause, m) == if Exposable(cause, m) then Some(Outcome(cause, m)) else None
  {
    CanonicalVersionIs(m.version);
    ExitCategories(m.exitCategory);
    StopReasons(m.stopReason);
    StopActions(m.stopAction);
    hide IsCanonicalVersion, ExitText, ReasonText, ActionText, EXIT_CATEGORIES, STOP_REASONS, STOP_ACTIONS;
    assert SafeCause(cause) <==> cause in {ContextCanceled, ContextDeadline} || exists code :: cause == Api(code);
    var numbers := [m.stdoutBytes, m.stderrBytes, m.queueDepth, m.runningCount, m.queueDuration, m.executionTime];
    assert numbers[0] in numbers && numbers[1] in numbers && numbers[2] in numbers && numbers[3] in numbers && numbers[4] in numbers
           && numbers[5] in numbers;
  }

  lemma ExitCategories(text: string)
    ensures text in EXIT_CATEGORIES <==> text in {"", "completed", "nonzero_exit"} || exists k :: ExitText(k) == text
  {
    assert ExitText(RunCanceled) == "canceled" && ExitText(RunTimeout) == "timeout" && ExitText(RunOutputLimit) == "output_limit";
    assert ExitText(RunStart) == "start_failed" && ExitText(RunCleanup) == "cleanup_failed";
  }

  lemma StopReasons(text: string)
    ensures text in STOP_REASONS <==> text in {"", "gateway_shutdown"} || exists r :: ReasonText(r) == text
  {
    assert ReasonText(StoppedNormally) == "completed" && ReasonText(StoppedByCaller) == "client_canceled";
    assert ReasonText(StoppedByTimeout) == "execution_timeout" && ReasonText(StoppedByOverflow) == "output_limit";
    assert ReasonText(StoppedByCleanup) == "cleanup_failed";
  }

  lemma StopActions(text: string)
    ensures text in STOP_ACTIONS <==> text == "" || exists a :: ActionText(a) == text
  {
    assert ActionText(NoAction) == "none" && ActionText(TermAction) == "term" && ActionText(KillAction) == "kill";
    assert ActionText(JobAction) == "terminate_job";
  }

  /** The metadata after a run, or nothing when the run reports what it cannot. */
  function ApplyProcessMetadata(m: Meta, r: ProcessResult, error: Option<RunError>): Option<Meta> {
    if r.stdoutTotal < r.stdout || r.stderrTotal < r.stderr || r.exitCode < -1 || r.reason.OtherReason? || r.action.OtherAction? then None
    else
      var base := m.(stdoutBytes := r.stdoutTotal, stderrBytes := r.stderrTotal, stopReason := ReasonText(r.reason), stopAction := ActionText(r.action));
      match error
      case None =>
        if r.exitCode < 0 then None
        else Some(base.(exitCategory := if r.exitCode == 0 then "completed" else "nonzero_exit"))
      case Some(Untyped) => None
      case Some(Run(kind, _, _, _)) => if kind.RunOther? then None else Some(base.(exitCategory := ExitText(kind)))
  }

  /** Applying what a run reports keeps the metadata valid. */
  lemma AppliedIsValid(m: Meta, r: ProcessResult, error: Option<RunError>)
    requires ValidMeta(m)
    ensures ApplyProcessMetadata(m, r, error).Some? ==> ValidMeta(ApplyProcessMetadata(m, r, error).value)
  {
    hide IsCanonicalVersion;
    assert "completed" in STOP_REASONS && "client_canceled" in STOP_REASONS && "execution_timeout" in STOP_REASONS;
    assert "output_limit" in STOP_REASONS && "cleanup_failed" in STOP_REASONS;
    assert "completed" in EXIT_CATEGORIES && "nonzero_exit" in EXIT_CATEGORIES && "canceled" in EXIT_CATEGORIES;
    assert "timeout" in EXIT_CATEGORIES && "output_limit" in EXIT_CATEGORIES && "start_failed" in EXIT_CATEGORIES;
    assert "cleanup_failed" in EXIT_CATEGORIES;
    assert "none" in STOP_ACTIONS && "term" in STOP_ACTIONS && "kill" in STOP_ACTIONS && "terminate_job" in STOP_ACTIONS;
  }

  // ---- what each text stands for ----

  /** A report that can be: totals cover what was kept, and reason, action, exit code and error are known. */
  ghost predicate Credible(r: ProcessResult, error: Option<RunError>) {
    && r.stdout <= r.stdoutTotal && r.stderr <= r.stderrTotal && r.reason != OtherReason && r.action != OtherAction
    && match error
       case None => r.exitCode >= 0
       case Some(e) => r.exitCode >= -1 && e != Untyped && e.kind != RunOther
  }

  ghost predicate EndedBy(error: Option<RunError>, kind: RunKind) {
    error != None && error.value != Untyped && error.value.kind == kind
  }

  /**
   The metadata after a run: every text is there for its own event and for no other, and the
   other values are as before. `shutdown` says that the gateway's own shutdown stopped the run.
   */
  ghost predicate Recorded(m: Meta, r: ProcessResult, error: Option<RunError>, shutdown: bool, m': Meta) {
    && m' == m.(stdoutBytes := r.stdoutTotal, stderrBytes := r.stderrTotal,
                exitCategory := m'.exitCategory, stopReason := m'.stopReason, stopAction := m'.stopAction)
    && (m'.stopReason == "gateway_shutdown" <==> shutdown)
    && (m'.stopReason == "completed" <==> !shutdown && r.reason == StoppedNormally)
    && (m'.stopReason == "client_canceled" <==> !shutdown && r.reason == StoppedByCaller)
    && (m'.stopReason == "execution_timeout" <==> !shutdown && r.reason == StoppedByTimeout)
    && (m'.stopReason == "output_limit" <==> !shutdown && r.reason == StoppedByOverflow)
    && (m'.stopReason == "cleanup_failed" <==> !shutdown && r.reason == StoppedByCleanup)
    && (m'.stopAction == "none" <==> r.action == NoAction)
    && (m'.stopAction == "term" <==> r.action == TermAction)
    && (m'.stopAction == "kill" <==> r.action == KillAction)
    && (m'.stopAction == "terminate_job" <==> r.action == JobAction)
    && (m'.exitCategory == "completed" <==> error == None && r.exitCode == 0)
    && (m'.exitCategory == "nonzero_exit" <==> error == None && r.exitCode > 0)
    && (m'.exitCategory == "canceled" <==> EndedBy(error, RunCanceled))
    && (m'.exitCategory == "timeout" <==> EndedBy(error, RunTimeout))
    && (m'.exitCategory == "output_limit" <==> EndedBy(error, RunOutputLimit))
    && (m'.exitCategory == "start_failed" <==> EndedBy(error, RunStart))
    && (m'.exitCategory == "cleanup_failed" <==> EndedBy(error, RunCleanup))
  }

  /** A credible report, and no other, is applied, and then every text says its event. */
  lemma AppliedIsRecorded(m: Meta, r: ProcessResult, error: Option<RunError>, m': Meta)
    ensures ApplyProcessMetadata(m, r, error).Some? <==> Credible(r, error)
    ensures ApplyProcessMetadata(m, r, error) == Some(m') ==> Recorded(m, r, error, false, m')
  {
    ReasonTexts(r.reason);
    ActionTexts(r.action);
    ExitTexts(match error case Some(Run(kind, _, _, _)) => kind case _ => RunOther);
    hide ReasonText, ActionText, ExitText;
  }

  lemma ReasonTexts(r: StopReason)
    ensures (ReasonText(r) == "completed" <==> r == StoppedNormally) && (ReasonText(r) == "client_canceled" <==> r == StoppedByCaller)
    ensures (ReasonText(r) == "execution_timeout" <==> r == StoppedByTimeout)
    ensures (ReasonText(r) == "output_limit" <==> r == StoppedByOverflow)
    ensures (ReasonText(r) == "cleanup_failed" <==> r == StoppedByCleanup) && ReasonText(r) != "gateway_shutdown"
  {
  }

  lemma ActionTexts(a: StopAction)
    ensures (ActionText(a) == "none" <==> a == NoAction) && (ActionText(a) == "term" <==> a == TermAction)
    ensures (ActionText(a) == "kill" <==> a == KillAction) && (ActionText(a) == "terminate_job" <==> a == JobAction)
  {
  }

  lemma ExitTexts(k: RunKind)
    ensures (ExitText(k) == "canceled" <==> k == RunCanceled) && (ExitText(k) == "timeout" <==> k == RunTimeout)
    ensures (ExitText(k) == "output_limit" <==> k == RunOutputLimit) && (ExitText(k) == "start_failed" <==> k == RunStart)
    ensures ExitText(k) == "cleanup_failed" <==> k == RunCleanup
    ensures ExitText(k) != "completed" && ExitText(k) != "nonzero_exit"
  {
  }

  // ---- classification ----

  datatype RequestEnd = StillOpen | EndedCanceled | EndedDeadline | EndedOtherwise

  datatype LiveProblem = NoProblem | LiveExecutableMissing | LiveExecutableUnsafe | LiveRuntimeCleanup

  datatype Classified = Classified(problem: LiveProblem, cause: Cause)

  function ClassifyExecutionError(end: RequestEnd, closing: bool, error: RunError): Option<Classified> {
    match error
    case Untyped => None
    case Run(kind, unavailable, notExist, permission) =>
      match kind
      case RunCanceled =>
        if closing then Some(Classified(NoProblem, Api(ServiceShuttingDown)))
        else if end.EndedCanceled? then Some(Classified(NoProblem, ContextCanceled))
        else if end.EndedDeadline? then Some(Classified(NoProblem, ContextDeadline))
        else None
      case RunTimeout => Some(Classified(NoProblem, Api(ProviderTimeout)))
      case RunOutputLimit => Some(Classified(NoProblem, Api(OutputLimitExceeded)))
      case RunCleanup => Some(Classified(LiveRuntimeCleanup, Api(ProcessCleanupFailed)))
      case RunStart =>
        if unavailable && notExist then Some(Classified(LiveExecutableMissing, Api(ProviderNotReady)))
        else if unavailable && permission then Some(Classified(LiveExecutableUnsafe, Api(ProviderNotReady)))
        else Some(Classified(NoProblem, Api(ProviderFailed)))
      case RunOther => None
  }

  /** What each cause of an execution error stands for. */
  ghost predicate ExecutionMeans(end: RequestEnd, closing: bool, error: RunError, c: Cause) {
    || (c == Api(ServiceShuttingDown) && EndedBy(Some(error), RunCanceled) && closing)
    || (c == ContextCanceled && EndedBy(Some(error), RunCanceled) && !closing && end == EndedCanceled)
    || (c == ContextDeadline && EndedBy(Some(error), RunCanceled) && !closing && end == EndedDeadline)
    || (c == Api(ProviderTimeout) && EndedBy(Some(error), RunTimeout))
    || (c == Api(OutputLimitExceeded) && EndedBy(Some(error), RunOutputLimit))
    || (c == Api(ProcessCleanupFailed) && EndedBy(Some(error), RunCleanup))
    || (c == Api(ProviderNotReady) && EndedBy(Some(error), RunStart) && error.unavailable && (error.notExist || error.permission))
    || (c == Api(ProviderFailed) && EndedBy(Some(error), RunStart) && !(error.unavailable && (error.notExist || error.permission)))
  }

  /** The live problem each execution error is evidence of. */
  ghost predicate EvidenceOf(error: RunError, problem: LiveProblem) {
    || (problem == LiveRuntimeCleanup && EndedBy(Some(error), RunCleanup))
    || (problem == LiveExecutableMissing && EndedBy(Some(error), RunStart) && error.unavailable && error.notExist)
    || (problem == LiveExecutableUnsafe && EndedBy(Some(error), RunStart) && error.unavailable && !error.notExist && error.permission)
  }

  lemma ExecutionClassified(end: RequestEnd, closing: bool, error: RunError)
    ensures var classified := ClassifyExecutionError(end, closing, error);
            && (classified == None <==> forall c :: !ExecutionMeans(end, closing, error, c))
            && (classified != None ==>
                  && (forall c :: c == classified.value.cause <==> ExecutionMeans(end, closing, error, c))
                  && (forall p :: p != NoProblem ==> (p == classified.value.problem <==> EvidenceOf(error, p))))
    ensures forall p :: EvidenceOf(error, p) ==> p != NoProblem
  {
    assert forall c :: ExecutionMeans(end, closing, error, c) ==>
      ClassifyExecutionError(end, closing, error) != None && ClassifyExecutionError(end, closing, error).value.cause == c;
    var classified := ClassifyExecutionError(end, closing, error);
    assert classified != None ==> ExecutionMeans(end, closing, error, classified.value.cause);
  }

  datatype ProviderError = AuthRequired | RateLimited | Protocol | Failed | UnknownError

  function ClassifyProviderError(e: ProviderError): Option<Cause> {
    match e
    case AuthRequired => Some(Api(ProviderAuthRequired))
    case RateLimited => Some(Api(ProviderRateLimited))
    case Protocol => Some(Api(ProviderProtocolError))
    case Failed => Some(Api(ProviderFailed))
    case UnknownError => None
  }

  /** What each cause of a provider's own error stands for. */
  ghost predicate ProviderMeans(e: ProviderError, c: Cause) {
    || (c == Api(ProviderAuthRequired) && e == AuthRequired)
    || (c == Api(ProviderRateLimited) && e == RateLimited)
    || (c == Api(ProviderProtocolError) && e == Protocol)
    || (c == Api(ProviderFailed) && e == Failed)
  }

  /** The adapter's reading of a finished run: its error, or the size of the final text and what holds of it. */
  datatype Reading = Reading(panicked: bool, parseError: Option<ProviderError>, size: nat, text: bool, structured: bool)

  datatype Ending = Accepted | Refused(cause: Cause) | Unclassified | AdapterPanicked

  /** What each cause of refusing a finished run stands for. */
  ghost predicate RefusalMeans(exitCode: int, finalBytes: nat, reading: Reading, c: Cause) {
    && !reading.panicked
    && match reading.parseError
       case Some(e) => ProviderMeans(e, c)
       case None =>
         || (c == Api(ProviderFailed) && exitCode != 0)
         || (c == Api(OutputLimitExceeded) && exitCode == 0 && finalBytes < reading.size)
         || (c == Api(ProviderProtocolError) && exitCode == 0 && reading.size <= finalBytes && (reading.size == 0 || !reading.text))
         || (c == Api(StructuredOutputInvalid) && exitCode == 0 && 0 < reading.size <= finalBytes && reading.text && !reading.structured)
  }

  /** How a run that ended without an error is judged: the first thing wrong with it decides. */
  function Judged(exitCode: int, finalBytes: nat, reading: Reading): (ending: Ending)
    ensures ending.Accepted? <==>
            && !reading.panicked && reading.parseError.None? && exitCode == 0
            && 1 <= reading.size <= finalBytes && reading.text && reading.structured
    ensures ending.AdapterPanicked? <==> reading.panicked
    ensures ending.Unclassified? <==> !reading.panicked && reading.parseError == Some(UnknownError)
    ensures forall c :: ending == Refused(c) <==> RefusalMeans(exitCode, finalBytes, reading, c)
  {
    if reading.panicked then AdapterPanicked
    else if reading.parseError.Some? then
      match ClassifyProviderError(reading.parseError.value)
      case None => Unclassified
      case Some(cause) => Refused(cause)
    else if exitCode != 0 then Refused(Api(ProviderFailed))
    else if reading.size > finalBytes then Refused(Api(OutputLimitExceeded))
    else if reading.size == 0 || !reading.text then Refused(Api(ProviderProtocolError))
    else if !reading.structured then Refused(Api(StructuredOutputInvalid))
    else Accepted
  }

  /** What the scheduler returned: the work's own error, one of its own, or something else. */
  datatype ScheduleError = WorkError | SchedulerShuttingDown | SchedulerCanceled | SchedulerQueueFull | SchedulerQueueTimeout | OtherScheduleError

  function ClassifySchedulerError(end: RequestEnd, closing: bool, e: ScheduleError): Option<Cause> {
    match e
    case SchedulerShuttingDown => Some(Api(ServiceShuttingDown))
    case SchedulerCanceled =>
      if closing then Some(Api(ServiceShuttingDown))
      else if end.EndedCanceled? then Some(ContextCanceled)
      else if end.EndedDeadline? then Some(ContextDeadline)
      else None
    case SchedulerQueueFull => Some(Api(QueueFull))
    case SchedulerQueueTimeout => Some(Api(QueueTimeout))
    case _ => None
  }

  /** What each cause of a scheduler's error stands for. */
  ghost predicate SchedulerMeans(end: RequestEnd, closing: bool, e: ScheduleError, c: Cause) {
    || (c == Api(QueueFull) && e == SchedulerQueueFull)
    || (c == Api(QueueTimeout) && e == SchedulerQueueTimeout)
    || (c == Api(ServiceShuttingDown) && (e == SchedulerShuttingDown || (e == SchedulerCanceled && closing)))
    || (c == ContextCanceled && e == SchedulerCanceled && !closing && end == EndedCanceled)
    || (c == ContextDeadline && e == SchedulerCanceled && !closing && end == EndedDeadline)
  }

  lemma SchedulerClassified(end: RequestEnd, closing: bool, e: ScheduleError)
    ensures forall c :: ClassifySchedulerError(end, closing, e) == Some(c) <==> SchedulerMeans(end, closing, e, c)
  {
  }

  /** The work of a request never finds the queue's causes. */
  ghost predicate WorkCause(c: Cause) {
    c !in {Api(QueueFull), Api(QueueTimeout)}
  }

  lemma CausesOfWork(end: RequestEnd, closing: bool, error: RunError, provider: ProviderError)
    ensures ClassifyExecutionError(end, closing, error).Some? ==> WorkCause(ClassifyExecutionError(end, closing, error).value.cause)
    ensures ClassifyProviderError(provider).Some? ==> WorkCause(ClassifyProviderError(provider).value)
  {
  }

  /** Nothing opaque comes out of the three classifiers. */
  lemma ClassifiedIsSafe(end: RequestEnd, closing: bool, run: RunError, provider: ProviderError, schedule: ScheduleError)
    ensures ClassifyExecutionError(end, closing, run).Some? ==> SafeCause(ClassifyExecutionError(end, closing, run).value.cause)
    ensures ClassifyProviderError(provider).Some? ==> SafeCause(ClassifyProviderError(provider).value)
    ensures ClassifySchedulerError(end, closing, schedule).Some? ==> SafeCause(ClassifySchedulerError(end, closing, schedule).value)
  {
  }

  /** A run classified as a failed cleanup is one whose metadata says so, and it degrades the provider. */
  lemma CleanupIsConsistent(m: Meta, r: ProcessResult, end: RequestEnd, closing: bool, error: RunError)
    requires ApplyProcessMetadata(m, r, Some(error)).Some? && ClassifyExecutionError(end, closing, error).Some?
    ensures ClassifyExecutionError(end, closing, error).value.cause == Api(ProcessCleanupFailed) <==>
            ApplyProcessMetadata(m, r, Some(error)).value.exitCategory == "cleanup_failed"
    ensures ClassifyExecutionError(end, closing, error).value.cause == Api(ProcessCleanupFailed) <==>
            ClassifyExecutionError(end, closing, error).value.problem == LiveRuntimeCleanup
  {
  }

  /** A shutdown of the gateway is what stopped an admitted run. */
  function NormalizeShutdown(m: Meta, admitted: bool, cause: Cause): Meta {
    if admitted && cause == Api(ServiceShuttingDown) then m.(stopReason := "gateway_shutdown") else m
  }

  lemma NormalizedIsValid(m: Meta, admitted: bool, cause: Cause)
    requires ValidMeta(m)
    ensures ValidMeta(NormalizeShutdown(m, admitted, cause))
  {
  }

  /** After a shutdown only the stop reason is another one. */
  lemma NormalizedIsRecorded(m: Meta, r: ProcessResult, error: Option<RunError>, applied: Meta, cause: Cause)
    requires Recorded(m, r, error, false, applied)
    ensures Recorded(m, r, error, cause == Api(ServiceShuttingDown), NormalizeShutdown(applied, true, cause))
  {
    var after := NormalizeShutdown(applied, true, cause);
    assert after.stopReason == if cause == Api(ServiceShuttingDown) then "gateway_shutdown" else applied.stopReason;
  }

  lemma NormalizedExit(m: Meta, admitted: bool, cause: Cause)
    ensures NormalizeShutdown(m, admitted, cause).exitCategory == m.exitCategory
  {
  }
}
