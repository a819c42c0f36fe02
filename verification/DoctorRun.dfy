/** A whole diagnosis run: the checks in order, the providers, the closing of everything, and the finished report. */
module DoctorRun {
  import opened Doctor
  import opened Health
  import opened ModelAlias
  import opened Options
  import opened Version

  // ---- the report and its validator ----

  datatype Phase = Unconstructed | CoreSet | ProvidersSet | Complete

  datatype Report = Report(core: seq<Check>, providers: seq<Row>, models: seq<string>,
                           expectedProviders: seq<Name>, expectedModels: seq<string>, expectedRanges: Ranges, phase: Phase)

  function NameRank(n: Name): nat {
    match n
    case Claude => 0
    case Codex => 1
    case Gemini => 2
    case OtherName => 3
  }

  predicate SortedNames(names: seq<Name>) {
    forall i :: 0 < i < |names| ==> NameRank(names[i - 1]) < NameRank(names[i])
  }

  ghost function NameText(n: Name): string {
    match n
    case Claude => "claude"
    case Codex => "codex"
    case Gemini => "gemini"
    case OtherName => ""
  }

  /** Providers come in the order of their texts. */
  lemma NamesAreAlphabetical(m: Name, n: Name)
    requires m != OtherName && n != OtherName && m != n
    ensures TextBefore(NameText(m), NameText(n)) || NameRank(n) < NameRank(m)
    ensures NameRank(m) != NameRank(n)
  {
    if NameRank(m) < NameRank(n) {
      assert FirstDifference(NameText(m), NameText(n), if n == Codex then 1 else 0);
    }
  }

  ghost predicate SortedAliases(aliases: seq<string>) {
    forall i :: 0 < i < |aliases| ==> TextBefore(aliases[i - 1], aliases[i])
  }

  predicate ProviderProvenance(r: Report) {
    && 0 < |r.expectedProviders| <= MAX_REPORT_PROVIDERS && |r.providers| == |r.expectedProviders|
    && r.expectedRanges.Keys == (set n <- r.expectedProviders)
    && SortedNames(r.expectedProviders)
    && forall k :: 0 <= k < |r.expectedProviders| ==>
         && !r.expectedProviders[k].OtherName? && r.providers[k].name == r.expectedProviders[k]
         && r.expectedRanges[r.expectedProviders[k]].Contains(r.expectedRanges[r.expectedProviders[k]].minInclusive)
  }

  ghost predicate ModelProvenance(r: Report) {
    && 0 < |r.expectedModels| <= MAX_REPORT_MODELS && r.models == r.expectedModels
    && SortedAliases(r.expectedModels) && forall alias <- r.expectedModels :: ValidAlias(alias)
  }

  ghost predicate ValidReport(identifier: char -> bool, r: Report) {
    && r.phase.Complete? && CoreVerdict(r.core).Some?
    && ProviderProvenance(r) && ModelProvenance(r)
    && RowsFit(identifier, r.providers, r.expectedRanges, CoreVerdict(r.core).value)
  }

  ghost predicate CoreReady(identifier: char -> bool, r: Report) {
    ValidReport(identifier, r) && forall c <- r.core :: c.status.Pass?
  }

  function InsertRow(sorted: seq<Row>, row: Row): seq<Row> {
    if sorted == [] || NameRank(row.name) <= NameRank(sorted[0].name) then [row] + sorted
    else [sorted[0]] + InsertRow(sorted[1..], row)
  }

  function SortRows(rows: seq<Row>): seq<Row> {
    if rows == [] then [] else InsertRow(SortRows(rows[1..]), rows[0])
  }

  /** Rows in name order stay as they are. */
  lemma {:induction false} SortedRowsStay(rows: seq<Row>)
    requires forall i :: 0 < i < |rows| ==> NameRank(rows[i - 1].name) < NameRank(rows[i].name)
    ensures SortRows(rows) == rows
  {
    if rows != [] {
      SortedRowsStay(rows[1..]);
    }
  }

  class ReportBuilder {
    var report: Report

    constructor (names: seq<Name>, models: seq<string>, ranges: Ranges)
      ensures report == Report([], [], [], names, models, ranges, Unconstructed)
    {
      report := Report([], [], [], names, models, ranges, Unconstructed);
    }

    method SetCore(checks: seq<Check>) returns (ok: bool)
      modifies this
      ensures ok <==> old(report).phase.Unconstructed?
      ensures report == if ok then old(report).(core := checks, phase := CoreSet) else old(report)
    {
      ok := report.phase.Unconstructed?;
      if ok {
        report := report.(core := checks, phase := CoreSet);
      }
    }

    method SetProviders(rows: seq<Row>) returns (ok: bool)
      modifies this
      ensures ok <==> old(report).phase.CoreSet?
      ensures report == if ok then old(report).(providers := SortRows(rows), phase := ProvidersSet) else old(report)
    {
      ok := report.phase.CoreSet?;
      if ok {
        report := report.(providers := SortRows(rows), phase := ProvidersSet);
      }
    }

    /** The aliases arrive in text order and as expected. */
    method CompleteReport(identifier: char -> bool, models: seq<string>) returns (ok: bool)
      requires ModelProvenance(report.(models := models))
      modifies this
      ensures old(report).phase.ProvidersSet? ==> report == old(report).(models := models, phase := Complete)
      ensures !old(report).phase.ProvidersSet? ==> report == old(report) && !ok
      ensures ok <==> old(report).phase.ProvidersSet? && ValidReport(identifier, report)
    {
      ok := report.phase.ProvidersSet?;
      if !ok {
        return;
      }
      report := report.(models := models, phase := Complete);
      var verdict := CoreVerdict(report.core);
      if verdict.None? || !ProviderProvenance(report) {
        return false;
      }
      ok := ValidateProviderRows(identifier, report.providers, report.expectedRanges, verdict.value);
    }
  }

  // ---- the run ----

  /** What the environment says of one provider, what its adapter answers, and whether a cleanup has failed by then. */
  datatype Probe = Probe(found: Evidence, health: Row, cleanupFailed: bool)

  /** Every answer a run gets from outside, in the order it asks. */
  datatype World = World(dependenciesValid: bool, authReady: bool, listenerValid: bool, schedulerValid: bool,
                         root: bool, openFailed: bool, locked: bool, janitorFailed: bool,
                         controller: bool, controllerFailed: bool, selfTestFailed: bool, selfTestCleanup: bool,
                         probes: seq<Probe>,
                         shutdownFailed: bool, shutdownCanceled: bool, retryFailed: bool, latched: bool,
                         canceled: bool, closeFailed: bool)

  datatype Error = InvalidDependencies | DiagnosisError | Canceled

  /** `root` says that the runtime root was handed over. */
  datatype Diagnosis = Diagnosis(report: Report, authValid: bool, root: bool)

  /** The configured providers in name order, their adapters' version ranges, and the model aliases in order. */
  datatype Setup = Setup(names: seq<Name>, credentials: map<Name, nat>, ranges: Ranges, models: seq<string>)

  /** What validation of the configuration and of the dependencies has established. */
  ghost predicate ValidSetup(s: Setup) {
    && 0 < |s.names| <= 3 && SortedNames(s.names)
    && s.ranges.Keys == s.credentials.Keys == (set n <- s.names)
    && (forall n <- s.names :: !n.OtherName? && s.ranges[n].Contains(s.ranges[n].minInclusive) && (n.Codex? ==> s.credentials[n] == 0))
    && 0 < |s.models| <= MAX_REPORT_MODELS && SortedAliases(s.models) && (forall alias <- s.models :: ValidAlias(alias))
  }

  function SkippedRows(names: seq<Name>): (rows: seq<Row>)
    ensures |rows| == |names| && forall k :: 0 <= k < |rows| ==> rows[k] == SkippedRow(names[k])
  {
    seq(|names|, k requires 0 <= k < |names| => SkippedRow(names[k]))
  }

  function InitialChecks(): seq<Check> {
    [Check(Listener, Pass, NoCode), Check(GatewayAuth, Pass, NoCode), Check(Scheduler, Pass, NoCode),
     Check(RuntimeRoot, CheckStatus.Skipped, NoCode), Check(RuntimeJanitor, CheckStatus.Skipped, NoCode),
     Check(Containment, CheckStatus.Skipped, NoCode), Check(ProbeCleanup, CheckStatus.Skipped, NoCode)]
  }

  /** Rows and checks the validator will accept together. */
  ghost predicate Reportable(identifier: char -> bool, s: Setup, checks: seq<Check>, rows: seq<Row>) {
    && CoreVerdict(checks).Some? && |rows| == |s.names| && (forall k :: 0 <= k < |rows| ==> rows[k].name == s.names[k])
    && RowsFit(identifier, rows, s.ranges, CoreVerdict(checks).value)
  }

  method FinishDiagnosis(identifier: char -> bool, s: Setup, checks: seq<Check>, rows: seq<Row>, authValid: bool, root: bool)
    returns (d: Option<Diagnosis>)
    requires ValidSetup(s)
    requires |checks| == 7
    ensures d.Some? <==> (checks[1].status.Pass? <==> authValid) && Reportable(identifier, s, checks, SortRows(rows))
    ensures d.Some? ==> ValidReport(identifier, d.value.report) && d.value.root == root && d.value.report.core == checks
                        && d.value.report.providers == SortRows(rows) && d.value.authValid == authValid
  {
    if (checks[1].status.Pass? && !authValid) || (checks[1].status.Fail? && authValid) {
      return None;
    }
    var builder := new ReportBuilder(s.names, s.models, s.ranges);
    var ok := builder.SetCore(checks);
    ok := builder.SetProviders(rows);
    ok := builder.CompleteReport(identifier, s.models);
    if !ok {
      return None;
    }
    return Some(Diagnosis(builder.report, authValid, root));
  }

  lemma NamedRowsStay(s: Setup, rows: seq<Row>)
    requires ValidSetup(s) && Named(s, rows)
    ensures SortRows(rows) == rows
  {
    SortedRowsStay(rows);
  }

  predicate FirstPass(checks: seq<Check>, n: nat)
    requires n <= |checks| <= 7
  {
    forall k :: 0 <= k < n ==> checks[k] == Check(CHECK_NAMES[k], Pass, NoCode)
  }

  /** How far the checks got when the run starts to finish, before the last of them is decided. */
  predicate Progress(checks: seq<Check>, root: bool) {
    && |checks| == 7 && FirstPass(checks, 3) && checks[6] == Check(ProbeCleanup, CheckStatus.Skipped, NoCode)
    && if !root then
         && checks[3].name == RuntimeRoot && checks[3].status.Fail? && ValidCheck(checks[3])
         && checks[4] == Check(RuntimeJanitor, CheckStatus.Skipped, NoCode) && checks[5] == Check(Containment, CheckStatus.Skipped, NoCode)
       else
         && FirstPass(checks, 4)
         && (|| (checks[4] == Check(RuntimeJanitor, Fail, RuntimeCleanupFailed) && checks[5] == Check(Containment, CheckStatus.Skipped, NoCode))
             || (FirstPass(checks, 5) && checks[5] == Check(Containment, Fail, ContainmentFailed))
             || FirstPass(checks, 6))
  }

  /** The rows of a run whose containment held: resolved up to a probe after which cleanup had failed. */
  ghost predicate Resolved(identifier: char -> bool, s: Setup, rows: seq<Row>, cleanupFailed: bool) {
    exists k :: 0 < k <= |rows| && ResolvedUpTo(identifier, s, rows, cleanupFailed, k)
  }

  predicate ResolvedUpTo(identifier: char -> bool, s: Setup, rows: seq<Row>, cleanupFailed: bool, k: nat)
    requires k <= |rows|
  {
    && (forall i :: 0 <= i < k ==> !IsSkipped(rows[i]) && RowAccepted(identifier, rows[i], s.ranges))
    && (forall i :: k <= i < |rows| ==> IsSkipped(rows[i]))
    && (k < |rows| ==> cleanupFailed && k > 0 && IsProof(identifier, rows[k - 1], s.ranges))
  }

  predicate Named(s: Setup, rows: seq<Row>) {
    |rows| == |s.names| && forall k :: 0 <= k < |rows| ==> rows[k].name == s.names[k]
  }

  lemma FinishedIsReportable(identifier: char -> bool, s: Setup, checks: seq<Check>, rows: seq<Row>, root: bool, before: bool, failed: bool)
    requires ValidSetup(s) && Progress(checks, root) && Named(s, rows) && (before ==> failed)
    requires if root && FirstPass(checks, 6) then Resolved(identifier, s, rows, before) else forall row <- rows :: IsSkipped(row)
    ensures var last := if !root then checks[6] else if failed then Check(ProbeCleanup, Fail, RuntimeCleanupFailed) else Check(ProbeCleanup, Pass, NoCode);
            Reportable(identifier, s, checks[6 := last], rows)
  {
    hide RowAccepted, IsSkipped, PreprobeRow;
    if root && FirstPass(checks, 6) {
      var k :| 0 < k <= |rows| && ResolvedUpTo(identifier, s, rows, before, k);
      var last := if failed then Check(ProbeCleanup, Fail, RuntimeCleanupFailed) else Check(ProbeCleanup, Pass, NoCode);
      assert CoreVerdict(checks[6 := last]) == Some(CoreState(false, failed));
      assert Judged(identifier, rows, s.ranges, CoreState(false, failed), k);
    }
  }

  // ---- what a run must report ----

  ghost predicate Preflight(w: World) {
    w.listenerValid && w.authReady && w.schedulerValid
  }

  ghost predicate Opened(w: World) {
    Preflight(w) && w.root && !w.openFailed
  }

  ghost predicate Controlled(w: World) {
    Opened(w) && !w.janitorFailed && w.controller
  }

  ghost predicate Contained(w: World) {
    Controlled(w) && !w.controllerFailed && !w.selfTestFailed && !w.selfTestCleanup
  }

  /** The probe of provider `k`, if it is made, ends the loop. */
  ghost predicate EndsAt(s: Setup, w: World, k: nat)
    requires k < |s.names| == |w.probes| && s.names[k] in s.credentials
  {
    NothingShown(s.names[k], s.credentials[s.names[k]], w.probes[k].found) && w.probes[k].cleanupFailed
  }

  ghost predicate Answers(s: Setup, w: World) {
    |w.probes| == |s.names| && forall n <- s.names :: n in s.credentials && n in s.ranges
  }

  ghost predicate Reached(s: Setup, w: World, k: nat)
    requires Answers(s, w) && k <= |s.names|
  {
    forall j :: 0 <= j < k ==> !EndsAt(s, w, j)
  }

  ghost predicate LoopFailed(s: Setup, w: World)
    requires Answers(s, w)
  {
    Contained(w) && !Reached(s, w, |s.names|)
  }

  /** A cleanup failed before the root is closed or handed over. */
  ghost predicate FailedBefore(s: Setup, w: World)
    requires Answers(s, w)
  {
    || LoopFailed(s, w)
    || (Controlled(w) && !w.controllerFailed && w.selfTestCleanup)
    || (Controlled(w) && (w.shutdownFailed || w.latched))
  }

  /** The root is handed over when everything was contained, nothing failed and the caller is still there. */
  ghost predicate HandedOver(s: Setup, w: World)
    requires Answers(s, w)
  {
    Contained(w) && !w.canceled && !FailedBefore(s, w)
  }

  ghost function Judge(name: CheckName, reached: bool, passed: bool, code: Code): Check {
    if !reached then Check(name, CheckStatus.Skipped, NoCode) else if passed then Check(name, Pass, NoCode) else Check(name, Fail, code)
  }

  /** Each check is judged exactly when the run got to it, with the code of its own failure. */
  ghost function ExpectedChecks(s: Setup, w: World): seq<Check>
    requires Answers(s, w)
  {
    [Judge(Listener, true, w.listenerValid, ListenerUnsafe),
     Judge(GatewayAuth, true, w.authReady, GatewayKeyMissing),
     Judge(Scheduler, true, w.schedulerValid, SchedulerInvalid),
     Judge(RuntimeRoot, Preflight(w), w.root, if w.locked then RuntimeLocked else RuntimeUnsafe),
     Judge(RuntimeJanitor, Opened(w), !w.janitorFailed, RuntimeCleanupFailed),
     Judge(Containment, Opened(w) && !w.janitorFailed, Contained(w), ContainmentFailed),
     Judge(ProbeCleanup, Opened(w), !FailedBefore(s, w) && (HandedOver(s, w) || !w.closeFailed), RuntimeCleanupFailed)]
  }

  ghost function ExpectedRow(identifier: char -> bool, s: Setup, w: World, k: nat): Row
    requires Answers(s, w) && k < |s.names|
  {
    var name := s.names[k];
    if Contained(w) && Reached(s, w, k)
    then ResolvedRow(identifier, name, s.credentials[name], s.ranges[name], w.probes[k].found, w.probes[k].health)
    else SkippedRow(name)
  }

  ghost predicate ExpectedRows(identifier: char -> bool, s: Setup, w: World, rows: seq<Row>)
    requires Answers(s, w)
  {
    |rows| == |s.names| && forall k :: 0 <= k < |rows| ==> rows[k] == ExpectedRow(identifier, s, w, k)
  }

  /** Each check, its status and its code, said of the world's answers. */
  ghost predicate ChecksState(s: Setup, w: World, checks: seq<Check>)
    requires Answers(s, w)
  {
    && |checks| == 7
    && checks[0].name == Listener && checks[1].name == GatewayAuth && checks[2].name == Scheduler && checks[3].name == RuntimeRoot
    && checks[4].name == RuntimeJanitor && checks[5].name == Containment && checks[6].name == ProbeCleanup
    && (forall c <- checks :: c.code == NoCode <==> c.status != Fail)
    && (checks[0].status == Pass <==> w.listenerValid) && (checks[0].code == ListenerUnsafe <==> !w.listenerValid)
    && (checks[1].status == Pass <==> w.authReady) && (checks[1].code == GatewayKeyMissing <==> !w.authReady)
    && (checks[2].status == Pass <==> w.schedulerValid) && (checks[2].code == SchedulerInvalid <==> !w.schedulerValid)
    && (var preflight := w.listenerValid && w.authReady && w.schedulerValid;
        && (checks[3].status == Pass <==> preflight && w.root)
        && (checks[3].code == RuntimeLocked <==> preflight && !w.root && w.locked)
        && (checks[3].code == RuntimeUnsafe <==> preflight && !w.root && !w.locked)
        && var usable := preflight && w.root && !w.openFailed;
        && (checks[4].status == Pass <==> usable && !w.janitorFailed)
        && (checks[4].code == RuntimeCleanupFailed <==> usable && w.janitorFailed)
        && var contained := w.controller && !w.controllerFailed && !w.selfTestFailed && !w.selfTestCleanup;
        && (checks[5].status == Pass <==> usable && !w.janitorFailed && contained)
        && (checks[5].code == ContainmentFailed <==> usable && !w.janitorFailed && !contained)
        && var cleanupFailed := FailedBefore(s, w) || (w.closeFailed && !HandedOver(s, w));
        && (checks[6].status == Pass <==> usable && !cleanupFailed)
        && (checks[6].code == RuntimeCleanupFailed <==> usable && cleanupFailed))
  }

  /** A provider the run got to has the row its evidence and its answer call for; the others say nothing. */
  ghost predicate RowsState(identifier: char -> bool, s: Setup, w: World, rows: seq<Row>)
    requires Answers(s, w)
  {
    && |rows| == |s.names|
    && forall k | 0 <= k < |s.names| ::
         var name := s.names[k];
         if Contained(w) && Reached(s, w, k)
         then RowStates(identifier, name, s.credentials[name], s.ranges[name], w.probes[k].found, w.probes[k].health, rows[k])
         else rows[k] == Row(name, Unknown, "", UnknownAuth, [], [])
  }

  lemma ExpectedStates(identifier: char -> bool, s: Setup, w: World, checks: seq<Check>, rows: seq<Row>)
    requires Answers(s, w) && checks == ExpectedChecks(s, w) && ExpectedRows(identifier, s, w, rows)
    ensures ChecksState(s, w, checks) && RowsState(identifier, s, w, rows)
  {
    hide RowStates, ResolvedRow, FailedBefore, HandedOver;
    forall k | 0 <= k < |s.names| && Contained(w) && Reached(s, w, k)
      ensures var name := s.names[k];
              RowStates(identifier, name, s.credentials[name], s.ranges[name], w.probes[k].found, w.probes[k].health, rows[k])
    {
      var name := s.names[k];
      ResolvedRowStates(identifier, name, s.credentials[name], s.ranges[name], w.probes[k].found, w.probes[k].health);
    }
  }

  /**
   Ends a run: stops the probes, closes or hands over the root, decides the last check and
   builds the report. `closes` counts the closings of the root.
   */
  method FinishRun(identifier: char -> bool, s: Setup, w: World, checks: array<Check>, rows: seq<Row>, root: bool,
                   controller: bool, transfer: bool, failedBefore: bool)
    returns (d: Option<Diagnosis>, error: Option<Error>, ghost closes: nat)
    requires ValidSetup(s) && checks.Length == 7 && Progress(checks[..], root) && Named(s, rows)
    requires if root && FirstPass(checks[..], 6) then Resolved(identifier, s, rows, failedBefore) else forall row <- rows :: IsSkipped(row)
    requires transfer <==> root && FirstPass(checks[..], 6) && !failedBefore
    modifies checks
    ensures d.Some? && ValidReport(identifier, d.value.report) && error == if w.canceled then Some(Canceled) else None
    ensures error.None? ==> (d.value.root <==> CoreReady(identifier, d.value.report))
    ensures var failed := failedBefore || (controller && (w.shutdownFailed || w.latched));
            && (d.value.root <==> transfer && !w.canceled && !failed)
            && closes == (if root && !d.value.root then 1 else 0)
            && d.value.report.core == old(checks[..])[6 :=
                 Judge(ProbeCleanup, root, !failed && (d.value.root || !w.closeFailed), RuntimeCleanupFailed)]
    ensures d.value.report.providers == rows
  {
    hide ValidSetup, CoreVerdict, Reportable, ValidReport, CoreReady, Resolved, IsSkipped, Named, SortRows;
    var cleanupFailed := failedBefore;
    closes := 0;
    if controller {
      if w.shutdownFailed {
        cleanupFailed := true;
        if w.shutdownCanceled && w.retryFailed {
          cleanupFailed := true;
        }
      }
      if w.latched {
        cleanupFailed := true;
      }
    }
    var handOver := transfer && !w.canceled && !cleanupFailed;
    var held := root;
    if !handOver && held {
      closes := 1;
      if w.closeFailed {
        cleanupFailed := true;
      }
      held := false;
    }
    ghost var progress := checks[..];
    FinishedIsReportable(identifier, s, progress, rows, root, failedBefore, cleanupFailed);
    if root {
      checks[6] := if cleanupFailed then Check(ProbeCleanup, Fail, RuntimeCleanupFailed) else Check(ProbeCleanup, Pass, NoCode);
    }
    assert checks[..] == progress[6 := checks[6]];
    NamedRowsStay(s, rows);
    d := FinishDiagnosis(identifier, s, checks[..], rows, true, held);
    error := if w.canceled then Some(Canceled) else None;
    ReadyExactly(identifier, s, progress, d.value.report, root);
  }

  /** All checks pass exactly when the first six did and the last one did. */
  lemma ReadyExactly(identifier: char -> bool, s: Setup, progress: seq<Check>, r: Report, root: bool)
    requires Progress(progress, root) && ValidReport(identifier, r) && |r.core| == 7 && r.core == progress[6 := r.core[6]]
    requires !root ==> r.core == progress
    ensures CoreReady(identifier, r) <==> root && FirstPass(progress, 6) && r.core[6].status.Pass?
  {
  }

  lemma AcceptedRow(identifier: char -> bool, s: Setup, row: Row, probed: bool)
    requires row.name in s.ranges && DiagnosisAccepts(identifier, row, s.ranges[row.name]) && (probed <==> !PreprobeRow(row))
    ensures RowAccepted(identifier, row, s.ranges) && (probed ==> IsProof(identifier, row, s.ranges))
  {
  }

  /** What one turn of the loop adds. */
  lemma ProviderResolved(identifier: char -> bool, s: Setup, w: World, k: nat, row: Row, probed: bool)
    requires ValidSetup(s) && Answers(s, w) && Contained(w) && k < |s.names| && Reached(s, w, k)
    requires row == ResolvedRow(identifier, s.names[k], s.credentials[s.names[k]], s.ranges[s.names[k]], w.probes[k].found, w.probes[k].health)
    requires probed <==> NothingShown(s.names[k], s.credentials[s.names[k]], w.probes[k].found)
    ensures row.name == s.names[k] && !IsSkipped(row) && RowAccepted(identifier, row, s.ranges) && row == ExpectedRow(identifier, s, w, k)
    ensures probed ==> IsProof(identifier, row, s.ranges)
    ensures EndsAt(s, w, k) <==> probed && w.probes[k].cleanupFailed
  {
    hide ResolvedRow, DiagnosisAccepts, PreprobeRow, ProofRow, IsSkipped, RowAccepted, IsProof, Finding, NothingShown;
    var name := s.names[k];
    FindingIs(name, s.credentials[name], w.probes[k].found);
    assert name in s.names;
    ResolvedRowAccepted(identifier, name, s.credentials[name], s.ranges[name], w.probes[k].found, w.probes[k].health);
    AcceptedRow(identifier, s, row, probed);
  }

  /** The first `k` providers are resolved, the rest still skipped. */
  ghost predicate ResolvedTo(identifier: char -> bool, s: Setup, w: World, rows: seq<Row>, k: nat)
    requires Answers(s, w)
  {
    && k <= |s.names| && Named(s, rows) && Reached(s, w, k)
    && (forall i :: 0 <= i < k ==> !IsSkipped(rows[i]) && RowAccepted(identifier, rows[i], s.ranges) && rows[i] == ExpectedRow(identifier, s, w, i))
    && (forall i :: k <= i < |rows| ==> rows[i] == SkippedRow(s.names[i]))
  }

  /** A row fit to stand for provider `k`. */
  ghost predicate Fits(identifier: char -> bool, s: Setup, w: World, k: nat, row: Row)
    requires Answers(s, w) && k < |s.names|
  {
    row.name == s.names[k] && !IsSkipped(row) && RowAccepted(identifier, row, s.ranges) && row == ExpectedRow(identifier, s, w, k)
  }

  lemma OneMoreResolved(identifier: char -> bool, s: Setup, w: World, rows: seq<Row>, k: nat, row: Row)
    requires Answers(s, w) && ResolvedTo(identifier, s, w, rows, k) && k < |s.names|
    requires Fits(identifier, s, w, k, row) && !EndsAt(s, w, k)
    ensures ResolvedTo(identifier, s, w, rows[k := row], k + 1)
  {
    hide RowAccepted, EndsAt, IsSkipped, SkippedRow, ExpectedRow;
  }

  lemma LastResolved(identifier: char -> bool, s: Setup, w: World, rows: seq<Row>, k: nat, row: Row)
    requires Answers(s, w) && Contained(w) && ResolvedTo(identifier, s, w, rows, k) && k < |s.names|
    requires Fits(identifier, s, w, k, row) && EndsAt(s, w, k) && IsProof(identifier, row, s.ranges)
    ensures Named(s, rows[k := row]) && Resolved(identifier, s, rows[k := row], true) && LoopFailed(s, w)
    ensures ExpectedRows(identifier, s, w, rows[k := row])
  {
    hide RowAccepted, IsProof, EndsAt, IsSkipped, SkippedRow, ResolvedRow;
    SkippedRowsAre(s.names);
    var after := rows[k := row];
    assert ResolvedUpTo(identifier, s, after, true, k + 1);
    forall i | 0 <= i < |after|
      ensures after[i] == ExpectedRow(identifier, s, w, i)
    {
      if i > k {
        assert !Reached(s, w, i);
      }
    }
  }

  lemma AllResolved(identifier: char -> bool, s: Setup, w: World, rows: seq<Row>)
    requires ValidSetup(s) && Answers(s, w) && Contained(w) && ResolvedTo(identifier, s, w, rows, |s.names|)
    ensures Named(s, rows) && Resolved(identifier, s, rows, false) && ExpectedRows(identifier, s, w, rows) && !LoopFailed(s, w)
  {
    hide RowAccepted, IsProof, EndsAt, IsSkipped;
    assert ResolvedUpTo(identifier, s, rows, false, |rows|);
  }

  lemma ReachedSoFar(identifier: char -> bool, s: Setup, w: World, rows: seq<Row>, k: nat)
    requires Answers(s, w) && ResolvedTo(identifier, s, w, rows, k)
    ensures k <= |s.names| == |rows| && Reached(s, w, k)
  {
  }

  lemma SkippedRowsAre(names: seq<Name>)
    ensures forall name <- names :: IsSkipped(SkippedRow(name))
  {
  }

  /** Probes the providers in order; a probe after which cleanup has failed ends the loop. */
  method ResolveProviders(identifier: char -> bool, s: Setup, w: World) returns (rows: seq<Row>, cleanupFailed: bool)
    requires ValidSetup(s) && Answers(s, w) && Contained(w)
    ensures Named(s, rows) && Resolved(identifier, s, rows, cleanupFailed)
    ensures ExpectedRows(identifier, s, w, rows) && (cleanupFailed <==> LoopFailed(s, w))
  {
    rows := SkippedRows(s.names);
    assert ResolvedTo(identifier, s, w, rows, 0);
    hide ResolvedTo, ResolvedRow, Finding, NothingShown, FirstShown, RowStates, ValidSetup, Resolved, ExpectedRows, LoopFailed, RowAccepted, IsSkipped, IsProof, ExpectedRow, EndsAt;
    var k := 0;
    while k < |s.names|
      invariant 0 <= k <= |s.names| == |rows| && ResolvedTo(identifier, s, w, rows, k)
    {
      var name := s.names[k];
      assert name in s.credentials && name in s.ranges;
      var row, probed := ResolveProvider(identifier, name, s.credentials[name], s.ranges[name], w.probes[k].found, w.probes[k].health);
      ReachedSoFar(identifier, s, w, rows, k);
      ProviderResolved(identifier, s, w, k, row, probed);
      if probed && w.probes[k].cleanupFailed {
        LastResolved(identifier, s, w, rows, k, row);
        return rows[k := row], true;
      }
      OneMoreResolved(identifier, s, w, rows, k, row);
      rows := rows[k := row];
      k := k + 1;
    }
    AllResolved(identifier, s, w, rows);
    cleanupFailed := false;
  }

  /**
   A whole run. Every report is valid and says exactly what the world's answers mean; without an error
   the root is handed over exactly when all checks pass, and an acquired root is closed or handed over once.
   */
  method Run(identifier: char -> bool, s: Setup, w: World)
    returns (d: Option<Diagnosis>, error: Option<Error>, ghost closes: nat)
    requires ValidSetup(s) && Answers(s, w)
    ensures d.None? <==> !w.dependenciesValid || (Preflight(w) && w.root && w.openFailed)
    ensures d.None? ==> error == Some(if w.dependenciesValid then DiagnosisError else InvalidDependencies)
    ensures d.Some? ==> ValidReport(identifier, d.value.report) && error == (if w.canceled then Some(Canceled) else None)
    ensures d.Some? ==> d.value.report.core == ExpectedChecks(s, w) && ExpectedRows(identifier, s, w, d.value.report.providers)
    ensures d.Some? ==> ChecksState(s, w, d.value.report.core) && RowsState(identifier, s, w, d.value.report.providers)
    ensures d.Some? ==> (d.value.root <==> HandedOver(s, w))
    ensures error.None? ==> (d.value.root <==> CoreReady(identifier, d.value.report))
    ensures closes == if w.dependenciesValid && Preflight(w) && w.root && (d.None? || !d.value.root) then 1 else 0
  {
    d, error, closes := None, None, 0;
    if !w.dependenciesValid {
      error := Some(InvalidDependencies);
      return;
    }
    var checks := new Check[7](k requires 0 <= k < 7 => InitialChecks()[k]);
    assert checks[..] == InitialChecks();
    hide Answers, ValidSetup, ValidReport, CoreReady, ExpectedChecks, ExpectedRows, ChecksState, RowsState, HandedOver, InitialChecks;
    if !w.authReady {
      checks[1] := Check(GatewayAuth, Fail, GatewayKeyMissing);
    }
    if !w.listenerValid {
      checks[0] := Check(Listener, Fail, ListenerUnsafe);
    }
    if !w.schedulerValid {
      checks[2] := Check(Scheduler, Fail, SchedulerInvalid);
    }
    if !w.authReady || !w.listenerValid || !w.schedulerValid {
      d, error := EndAtPreflight(identifier, s, w, checks[..]);
    } else {
      d, error, closes := RunFromRoot(identifier, s, w, checks);
    }
    if d.Some? {
      ExpectedStates(identifier, s, w, d.value.report.core, d.value.report.providers);
    }
  }

  /** A check before the root failed: nothing else is tried. */
  method EndAtPreflight(identifier: char -> bool, s: Setup, w: World, checks: seq<Check>) returns (d: Option<Diagnosis>, error: Option<Error>)
    requires ValidSetup(s) && Answers(s, w) && !Preflight(w)
    requires checks == [if w.listenerValid then Check(Listener, Pass, NoCode) else Check(Listener, Fail, ListenerUnsafe),
                        if w.authReady then Check(GatewayAuth, Pass, NoCode) else Check(GatewayAuth, Fail, GatewayKeyMissing),
                        if w.schedulerValid then Check(Scheduler, Pass, NoCode) else Check(Scheduler, Fail, SchedulerInvalid)]
                       + InitialChecks()[3..]
    ensures d.Some? && ValidReport(identifier, d.value.report) && error == (if w.canceled then Some(Canceled) else None)
    ensures d.value.report.core == ExpectedChecks(s, w) && ExpectedRows(identifier, s, w, d.value.report.providers)
    ensures !d.value.root && !HandedOver(s, w) && !CoreReady(identifier, d.value.report)
  {
    hide RowAccepted, IsSkipped, ValidReport, CoreReady, ValidSetup, CoreVerdict, Reportable, SortRows, ExpectedChecks, FailedBefore;
    PreflightReportable(identifier, s, checks, w.authReady, w.listenerValid, w.schedulerValid);
    SkippedRowsStay(s);
    d := FinishDiagnosis(identifier, s, checks, SkippedRows(s.names), w.authReady, false);
    NotReady(identifier, d.value.report);
    PreflightChecks(s, w, checks);
    error := if w.canceled then Some(Canceled) else None;
  }

  lemma PreflightChecks(s: Setup, w: World, checks: seq<Check>)
    requires Answers(s, w) && !Preflight(w)
    requires checks == [Judge(Listener, true, w.listenerValid, ListenerUnsafe), Judge(GatewayAuth, true, w.authReady, GatewayKeyMissing),
                        Judge(Scheduler, true, w.schedulerValid, SchedulerInvalid)] + InitialChecks()[3..]
    ensures checks == ExpectedChecks(s, w)
    ensures forall k :: 0 <= k < |s.names| ==> SkippedRows(s.names)[k] == SkippedRow(s.names[k])
  {
  }

  lemma SkippedRowsStay(s: Setup)
    requires ValidSetup(s)
    ensures SortRows(SkippedRows(s.names)) == SkippedRows(s.names)
  {
    NamedRowsStay(s, SkippedRows(s.names));
  }

  lemma PreflightReportable(identifier: char -> bool, s: Setup, checks: seq<Check>, auth: bool, listener: bool, scheduler: bool)
    requires ValidSetup(s) && !(auth && listener && scheduler)
    requires checks == [if listener then Check(Listener, Pass, NoCode) else Check(Listener, Fail, ListenerUnsafe),
                        if auth then Check(GatewayAuth, Pass, NoCode) else Check(GatewayAuth, Fail, GatewayKeyMissing),
                        if scheduler then Check(Scheduler, Pass, NoCode) else Check(Scheduler, Fail, SchedulerInvalid)]
                       + InitialChecks()[3..]
    ensures Reportable(identifier, s, checks, SkippedRows(s.names))
  {
    assert |checks| == 7 && checks[3..] == InitialChecks()[3..];
    assert checks[3] == InitialChecks()[3] && checks[4] == InitialChecks()[4];
    assert checks[5] == InitialChecks()[5] && checks[6] == InitialChecks()[6];
    PreflightVerdict(checks);
    hide CoreVerdict;
    SkippedAreSkipped(s.names);
  }

  lemma PreflightVerdict(checks: seq<Check>)
    requires |checks| == 7 && checks[3..] == InitialChecks()[3..]
    requires forall k :: 0 <= k < 7 ==> checks[k].name == CHECK_NAMES[k] && ValidCheck(checks[k])
    requires !checks[0].status.Skipped? && !checks[1].status.Skipped? && !checks[2].status.Skipped?
    requires !(checks[0].status.Pass? && checks[1].status.Pass? && checks[2].status.Pass?)
    ensures CoreVerdict(checks) == Some(CoreState(true, false))
  {
  }

  lemma NotReady(identifier: char -> bool, r: Report)
    requires |r.core| == 7 && !(r.core[0].status.Pass? && r.core[1].status.Pass? && r.core[2].status.Pass?)
    ensures !CoreReady(identifier, r)
  {
  }

  method RunFromRoot(identifier: char -> bool, s: Setup, w: World, checks: array<Check>)
    returns (d: Option<Diagnosis>, error: Option<Error>, ghost closes: nat)
    requires ValidSetup(s) && Answers(s, w) && Preflight(w) && checks.Length == 7 && checks[..] == InitialChecks()
    modifies checks
    ensures d.None? <==> w.root && w.openFailed
    ensures d.None? ==> error == Some(DiagnosisError)
    ensures d.Some? ==> ValidReport(identifier, d.value.report) && error == (if w.canceled then Some(Canceled) else None)
    ensures d.Some? ==> d.value.report.core == ExpectedChecks(s, w) && ExpectedRows(identifier, s, w, d.value.report.providers)
    ensures d.Some? ==> (d.value.root <==> HandedOver(s, w))
    ensures error.None? ==> (d.value.root <==> CoreReady(identifier, d.value.report))
    ensures closes == if w.root && (d.None? || !d.value.root) then 1 else 0
  {
    hide RowAccepted, IsSkipped, ValidReport, CoreReady, ResolvedUpTo, ValidSetup, Resolved, CoreVerdict, Reached;
    var rows := SkippedRows(s.names);
    SkippedAreSkipped(s.names);
    if w.root && w.openFailed {
      return None, Some(DiagnosisError), 1;
    }
    if !w.root {
      checks[3] := Check(RuntimeRoot, Fail, if w.locked then RuntimeLocked else RuntimeUnsafe);
      d, error, closes := FinishRun(identifier, s, w, checks, rows, false, false, false, false);
      return;
    }
    checks[3] := Check(RuntimeRoot, Pass, NoCode);
    if w.janitorFailed {
      checks[4] := Check(RuntimeJanitor, Fail, RuntimeCleanupFailed);
      d, error, closes := FinishRun(identifier, s, w, checks, rows, true, false, false, false);
      return;
    }
    checks[4] := Check(RuntimeJanitor, Pass, NoCode);
    d, error, closes := RunContained(identifier, s, w, checks, rows);
  }

  method RunContained(identifier: char -> bool, s: Setup, w: World, checks: array<Check>, skipped: seq<Row>)
    returns (d: Option<Diagnosis>, error: Option<Error>, ghost closes: nat)
    requires ValidSetup(s) && Answers(s, w) && Opened(w) && !w.janitorFailed && skipped == SkippedRows(s.names)
    requires checks.Length == 7 && FirstPass(checks[..], 5) && checks[5..] == InitialChecks()[5..]
    modifies checks
    ensures d.Some? && ValidReport(identifier, d.value.report) && error == (if w.canceled then Some(Canceled) else None)
    ensures d.value.report.core == ExpectedChecks(s, w) && ExpectedRows(identifier, s, w, d.value.report.providers)
    ensures d.value.root <==> HandedOver(s, w)
    ensures error.None? ==> (d.value.root <==> CoreReady(identifier, d.value.report))
    ensures closes == if !d.value.root then 1 else 0
  {
    hide RowAccepted, IsSkipped, ValidReport, CoreReady, ResolvedUpTo, ValidSetup, Resolved, CoreVerdict, Reached;
    SkippedAreSkipped(s.names);
    var rows := skipped;
    assert checks[5] == checks[5..][0] && checks[6] == checks[5..][1];
    if w.controllerFailed || !w.controller {
      checks[5] := Check(Containment, Fail, ContainmentFailed);
      d, error, closes := FinishRun(identifier, s, w, checks, rows, true, w.controller, false, false);
      return;
    }
    if w.selfTestFailed || w.selfTestCleanup {
      checks[5] := Check(Containment, Fail, ContainmentFailed);
      d, error, closes := FinishRun(identifier, s, w, checks, rows, true, true, false, w.selfTestCleanup);
      return;
    }
    checks[5] := Check(Containment, Pass, NoCode);
    var cleanupFailed;
    rows, cleanupFailed := ResolveProviders(identifier, s, w);
    d, error, closes := FinishRun(identifier, s, w, checks, rows, true, true, !cleanupFailed, cleanupFailed);
  }

  lemma SkippedAreSkipped(names: seq<Name>)
    ensures forall row <- SkippedRows(names) :: IsSkipped(row)
  {
  }
}
