/** The readiness diagnosis: its checks, its provider rows, the report it builds and who ends up owning the runtime root. */
module Doctor {
  import opened Health
  import opened Options
  import opened Version

  // ---- checks ----

  datatype CheckName = Listener | GatewayAuth | Scheduler | RuntimeRoot | RuntimeJanitor | Containment | ProbeCleanup

  datatype CheckStatus = Pass | Fail | Skipped

  /** A failure code with its fixed message. */
  datatype Code = NoCode | ListenerUnsafe | GatewayKeyMissing | SchedulerInvalid | RuntimeUnsafe | RuntimeLocked
                | RuntimeCleanupFailed | ContainmentFailed

  datatype Check = Check(name: CheckName, status: CheckStatus, code: Code)

  const CHECK_NAMES: seq<CheckName> := [Listener, GatewayAuth, Scheduler, RuntimeRoot, RuntimeJanitor, Containment, ProbeCleanup]

  const MAX_REPORT_PROVIDERS := 3

  const MAX_REPORT_MODELS := 1024

  predicate ValidFailure(name: CheckName, code: Code) {
    match name
    case Listener => code.ListenerUnsafe?
    case GatewayAuth => code.GatewayKeyMissing?
    case Scheduler => code.SchedulerInvalid?
    case RuntimeRoot => code.RuntimeUnsafe? || code.RuntimeLocked?
    case RuntimeJanitor => code.RuntimeCleanupFailed?
    case ProbeCleanup => code.RuntimeCleanupFailed?
    case Containment => code.ContainmentFailed?
  }

  predicate ValidCheck(c: Check) {
    if c.status.Fail? then ValidFailure(c.name, c.code) else c.code.NoCode?
  }

  /** What the checks say of the provider rows. */
  datatype CoreState = CoreState(providersMustSkip: bool, cleanupFailed: bool)

  predicate AllSkipped(checks: seq<Check>) {
    forall c <- checks :: c.status.Skipped?
  }

  function CoreVerdict(checks: seq<Check>): Option<CoreState> {
    if |checks| != 7 || exists k :: 0 <= k < 7 && (checks[k].name != CHECK_NAMES[k] || !ValidCheck(checks[k])) then None
    else if checks[0].status.Skipped? || checks[1].status.Skipped? || checks[2].status.Skipped? then None
    else if !(checks[0].status.Pass? && checks[1].status.Pass? && checks[2].status.Pass?) then
      if AllSkipped(checks[3..]) then Some(CoreState(true, false)) else None
    else if checks[3].status.Skipped? then None
    else if checks[3].status.Fail? then if AllSkipped(checks[4..]) then Some(CoreState(true, false)) else None
    else if checks[4].status.Skipped? || checks[6].status.Skipped? then None
    else if checks[4].status.Fail? then if checks[5].status.Skipped? then Some(CoreState(true, false)) else None
    else if checks[5].status.Skipped? then None
    else if checks[5].status.Fail? then Some(CoreState(true, false))
    else Some(CoreState(false, checks[6].status.Fail?))
  }

  /** The failure codes, each with the checks that may end with it. */
  ghost predicate FailsWith(name: CheckName, code: Code) {
    || (code == ListenerUnsafe && name == Listener)
    || (code == GatewayKeyMissing && name == GatewayAuth)
    || (code == SchedulerInvalid && name == Scheduler)
    || (code in {RuntimeUnsafe, RuntimeLocked} && name == RuntimeRoot)
    || (code == RuntimeCleanupFailed && name in {RuntimeJanitor, ProbeCleanup})
    || (code == ContainmentFailed && name == Containment)
  }

  ghost predicate Passed(checks: seq<Check>, n: nat)
    requires n <= |checks|
  {
    forall k | 0 <= k < n :: checks[k].status == Pass
  }

  /**
   Seven checks in their order. Each of the first six is judged exactly when those it stands on
   passed, the last one exactly when there is a root; the providers are skipped unless the
   first six passed, and then the last one says whether a cleanup failed.
   */
  ghost predicate CoreFits(checks: seq<Check>, state: CoreState) {
    && |checks| == 7
    && checks[0].name == Listener && checks[1].name == GatewayAuth && checks[2].name == Scheduler && checks[3].name == RuntimeRoot
    && checks[4].name == RuntimeJanitor && checks[5].name == Containment && checks[6].name == ProbeCleanup
    && (forall c <- checks :: if c.status == Fail then FailsWith(c.name, c.code) else c.code == NoCode)
    && (forall k | 0 <= k < 3 :: checks[k].status != CheckStatus.Skipped)
    && (forall k | 3 <= k < 6 :: checks[k].status == CheckStatus.Skipped <==> !Passed(checks, k))
    && (checks[6].status == CheckStatus.Skipped <==> !Passed(checks, 4))
    && (state.providersMustSkip <==> !Passed(checks, 6))
    && (state.cleanupFailed <==> Passed(checks, 6) && checks[6].status == Fail)
  }

  lemma CoreVerdictIs(checks: seq<Check>, state: CoreState)
    ensures CoreVerdict(checks) == Some(state) <==> CoreFits(checks, state)
  {
    if |checks| == 7 {
      EachValid(checks);
      AllSkippedFrom(checks, 3);
      AllSkippedFrom(checks, 4);
      PassedTo(checks);
      hide ValidCheck, FailsWith, AllSkipped, Passed;
    }
  }

  lemma EachValid(checks: seq<Check>)
    requires |checks| == 7
    ensures (forall k | 0 <= k < 7 :: checks[k].name == CHECK_NAMES[k] && ValidCheck(checks[k])) <==>
            && checks[0].name == Listener && checks[1].name == GatewayAuth && checks[2].name == Scheduler && checks[3].name == RuntimeRoot
            && checks[4].name == RuntimeJanitor && checks[5].name == Containment && checks[6].name == ProbeCleanup
            && (forall c <- checks :: if c.status == Fail then FailsWith(c.name, c.code) else c.code == NoCode)
  {
    forall c: Check
      ensures ValidCheck(c) <==> if c.status == Fail then FailsWith(c.name, c.code) else c.code == NoCode
    {
    }
    hide ValidCheck, FailsWith;
    assert forall k | 0 <= k < 7 :: checks[k] in checks;
  }

  lemma AllSkippedFrom(checks: seq<Check>, n: nat)
    requires n <= |checks|
    ensures AllSkipped(checks[n..]) <==> forall k | n <= k < |checks| :: checks[k].status.Skipped?
  {
    assert forall k | n <= k < |checks| :: checks[k] in checks[n..];
  }

  lemma PassedTo(checks: seq<Check>)
    requires |checks| == 7
    ensures Passed(checks, 3) <==> checks[0].status.Pass? && checks[1].status.Pass? && checks[2].status.Pass?
    ensures Passed(checks, 4) <==> Passed(checks, 3) && checks[3].status.Pass?
    ensures Passed(checks, 5) <==> Passed(checks, 4) && checks[4].status.Pass?
    ensures Passed(checks, 6) <==> Passed(checks, 5) && checks[5].status.Pass?
  {
  }

  // ---- provider rows ----

  function SkippedRow(name: Name): Row {
    Row(name, Unknown, "", UnknownAuth, [], [])
  }

  predicate IsSkipped(row: Row) {
    row.status.Unknown? && row.version == "" && row.auth.UnknownAuth? && row.capabilities == [] && row.problems == []
  }

  lemma SkippedSaysNothing(row: Row)
    ensures IsSkipped(row) <==> row == Row(row.name, Unknown, "", UnknownAuth, [], [])
  {
  }

  type Ranges = map<Name, Range>

  predicate RowAccepted(identifier: char -> bool, row: Row, ranges: Ranges) {
    row.name in ranges && DiagnosisAccepts(identifier, row, ranges[row.name])
  }

  predicate IsProof(identifier: char -> bool, row: Row, ranges: Ranges) {
    RowAccepted(identifier, row, ranges) && !PreprobeRow(row)
  }

  /**
   The rows a validated report may have: all skipped; or all judged; or, after a failed
   cleanup, some judged rows of which the last was probed, followed by skipped ones.
   */
  predicate RowsFit(identifier: char -> bool, rows: seq<Row>, ranges: Ranges, state: CoreState) {
    if state.providersMustSkip then forall row <- rows :: IsSkipped(row)
    else
      exists k :: 0 <= k <= |rows| && Judged(identifier, rows, ranges, state, k)
  }

  predicate Judged(identifier: char -> bool, rows: seq<Row>, ranges: Ranges, state: CoreState, k: nat)
    requires k <= |rows|
  {
    && (forall i :: 0 <= i < k ==> !IsSkipped(rows[i]) && RowAccepted(identifier, rows[i], ranges))
    && (forall i :: k <= i < |rows| ==> IsSkipped(rows[i]))
    && (k < |rows| ==> state.cleanupFailed && k > 0 && RowAccepted(identifier, rows[k - 1], ranges) && !PreprobeRow(rows[k - 1]))
    && (state.cleanupFailed ==> k > 0)
  }

  lemma JudgedOnlyThere(identifier: char -> bool, rows: seq<Row>, ranges: Ranges, state: CoreState, canonical: nat)
    requires canonical <= |rows| && !state.providersMustSkip
    requires forall i :: 0 <= i < canonical ==> !IsSkipped(rows[i])
    requires canonical < |rows| ==> IsSkipped(rows[canonical])
    ensures RowsFit(identifier, rows, ranges, state) <==> Judged(identifier, rows, ranges, state, canonical)
  {
    hide IsSkipped, RowAccepted, IsProof;
    forall k | 0 <= k <= |rows| && k != canonical
      ensures !Judged(identifier, rows, ranges, state, k)
    {
      if k < canonical {
        assert !IsSkipped(rows[k]);
      } else {
        assert IsSkipped(rows[canonical]);
      }
    }
  }

  lemma UnacceptedRow(identifier: char -> bool, rows: seq<Row>, ranges: Ranges, state: CoreState, k: nat)
    requires k < |rows| && !state.providersMustSkip && !IsSkipped(rows[k]) && !RowAccepted(identifier, rows[k], ranges)
    ensures !RowsFit(identifier, rows, ranges, state)
  {
  }

  /** The validator's single pass over the rows. */
  method ValidateProviderRows(identifier: char -> bool, rows: seq<Row>, ranges: Ranges, state: CoreState) returns (ok: bool)
    ensures ok <==> RowsFit(identifier, rows, ranges, state)
  {
    hide RowAccepted, IsProof, IsSkipped, Judged;
    if state.providersMustSkip {
      return forall row <- rows :: IsSkipped(row);
    }
    var seenSkipped, canonicalRows, lastRowWasProof := false, 0, false;
    var k := 0;
    while k < |rows|
      invariant 0 <= canonicalRows <= k <= |rows|
      invariant forall i :: 0 <= i < canonicalRows ==> !IsSkipped(rows[i]) && RowAccepted(identifier, rows[i], ranges)
      invariant forall i :: canonicalRows <= i < k ==> IsSkipped(rows[i])
      invariant seenSkipped <==> canonicalRows < k
      invariant lastRowWasProof <==> canonicalRows > 0 && IsProof(identifier, rows[canonicalRows - 1], ranges)
      invariant seenSkipped ==> state.cleanupFailed && lastRowWasProof
    {
      var row := rows[k];
      if IsSkipped(row) {
        if !state.cleanupFailed || !lastRowWasProof {
          JudgedOnlyThere(identifier, rows, ranges, state, canonicalRows);
          NotEnded(identifier, rows, ranges, state, canonicalRows);
          return false;
        }
        seenSkipped := true;
      } else {
        if seenSkipped || !RowAccepted(identifier, row, ranges) {
          if seenSkipped {
            JudgedOnlyThere(identifier, rows, ranges, state, canonicalRows);
            NotSkippedAfter(identifier, rows, ranges, state, canonicalRows, k);
          } else {
            UnacceptedRow(identifier, rows, ranges, state, k);
          }
          return false;
        }
        canonicalRows := canonicalRows + 1;
        lastRowWasProof := IsProof(identifier, row, ranges);
      }
      k := k + 1;
    }
    ok := !state.cleanupFailed || canonicalRows > 0;
    JudgedOnlyThere(identifier, rows, ranges, state, canonicalRows);
    AllSeen(identifier, rows, ranges, state, canonicalRows);
  }

  lemma NotEnded(identifier: char -> bool, rows: seq<Row>, ranges: Ranges, state: CoreState, k: nat)
    requires k < |rows| && (!state.cleanupFailed || k == 0 || !IsProof(identifier, rows[k - 1], ranges))
    ensures !Judged(identifier, rows, ranges, state, k)
  {
  }

  lemma NotSkippedAfter(identifier: char -> bool, rows: seq<Row>, ranges: Ranges, state: CoreState, k: nat, i: nat)
    requires k <= i < |rows| && !IsSkipped(rows[i])
    ensures !Judged(identifier, rows, ranges, state, k)
  {
  }

  lemma AllSeen(identifier: char -> bool, rows: seq<Row>, ranges: Ranges, state: CoreState, k: nat)
    requires k <= |rows|
    requires forall i :: 0 <= i < k ==> !IsSkipped(rows[i]) && RowAccepted(identifier, rows[i], ranges)
    requires forall i :: k <= i < |rows| ==> IsSkipped(rows[i])
    requires k < |rows| ==> state.cleanupFailed && k > 0 && IsProof(identifier, rows[k - 1], ranges)
    ensures Judged(identifier, rows, ranges, state, k) <==> !state.cleanupFailed || k > 0
  {
  }

  // ---- one provider ----

  function SortedUniqueProblems(problems: seq<Problem>, from: nat): seq<Problem>
    requires from <= |ALL_PROBLEMS|
    decreases |ALL_PROBLEMS| - from
  {
    if from == |ALL_PROBLEMS| then []
    else (if ALL_PROBLEMS[from] in problems then [ALL_PROBLEMS[from]] else []) + SortedUniqueProblems(problems, from + 1)
  }

  function SortedUniqueCapabilities(capabilities: seq<Capability>, order: seq<Capability>): seq<Capability> {
    if order == [] then []
    else (if order[0] in capabilities then [order[0]] else []) + SortedUniqueCapabilities(capabilities, order[1..])
  }

  /** The row that stands for an adapter answer that makes no sense. */
  function MalformedRow(name: Name): Row {
    Row(name, NotReady, "", UnknownAuth, [], [AuthUnknown, CapabilityMissing, VersionUnreadable])
  }

  /** An adapter's answer, sorted and checked, or the malformed row. */
  function CanonicalizeHealth(identifier: char -> bool, name: Name, interval: Range, health: Row): Row {
    if health.name != name || health.status.OtherStatus?
       || (exists c <- health.capabilities :: c !in ReadyCapabilities(name))
       || (exists p <- health.problems :: !ProblemAllowed(name, p)) then MalformedRow(name)
    else
      var row := Row(name, health.status, health.version, health.auth,
                     SortedUniqueCapabilities(health.capabilities, ReadyCapabilities(name)), SortedUniqueProblems(health.problems, 0));
      if ProofRow(identifier, row, interval) then row else MalformedRow(name)
  }

  lemma RankAt(k: nat)
    requires k < |ALL_PROBLEMS|
    ensures ProblemRank(ALL_PROBLEMS[k]) == k
  {
  }

  lemma {:induction false} UniqueProblemsSorted(problems: seq<Problem>, from: nat)
    requires from <= |ALL_PROBLEMS|
    ensures SortedProblems(SortedUniqueProblems(problems, from))
    ensures forall p <- SortedUniqueProblems(problems, from) :: p in problems && ProblemRank(p) >= from
    decreases |ALL_PROBLEMS| - from
  {
    if from < |ALL_PROBLEMS| {
      UniqueProblemsSorted(problems, from + 1);
      var rest := SortedUniqueProblems(problems, from + 1);
      RankAt(from);
      hide ProblemRank, ALL_PROBLEMS;
      assert rest != [] ==> rest[0] in rest;
    }
  }

  lemma SortedMalformed()
    ensures SortProblems([VersionUnreadable, CapabilityMissing, AuthUnknown]) == [AuthUnknown, CapabilityMissing, VersionUnreadable]
  {
  }

  lemma MalformedIsProof(identifier: char -> bool, name: Name, interval: Range)
    requires !name.OtherName?
    ensures Sound(MalformedRow(name)) && ProofRow(identifier, MalformedRow(name), interval)
  {
    SortedMalformed();
    hide SortProblems;
    assert [VersionUnreadable] + [CapabilityMissing] + [AuthUnknown] == [VersionUnreadable, CapabilityMissing, AuthUnknown];
    assert ReadyCapabilities(name) != [];
  }

  /** Sorting the capabilities of an accepted row changes nothing the rules depend on. */
  lemma ReadyIsSorted(name: Name)
    ensures SortedCapabilities(ReadyCapabilities(name)) && SortedCapabilities([])
  {
  }

  /** Whatever the adapter answers, the row is one the report validator accepts as probed. */
  lemma CanonicalRowAccepted(identifier: char -> bool, name: Name, interval: Range, health: Row)
    requires !name.OtherName?
    ensures var row := CanonicalizeHealth(identifier, name, interval, health);
            row.name == name && Sound(row) && ProofRow(identifier, row, interval) && !PreprobeRow(row) && !IsSkipped(row)
  {
    var row := CanonicalizeHealth(identifier, name, interval, health);
    MalformedIsProof(identifier, name, interval);
    ReadyIsSorted(name);
    if row != MalformedRow(name) {
      UniqueProblemsSorted(health.problems, 0);
      AuthAlike(row);
    }
    hide ReadyCapabilities;
    ProofIsNoPreprobe(identifier, row, interval);
  }

  /** The row repeats the answer, up to order and repetition in its lists. */
  ghost predicate Repeats(row: Row, health: Row) {
    && row.name == health.name && row.status == health.status && row.version == health.version && row.auth == health.auth
    && (forall c :: c in row.capabilities <==> c in health.capabilities)
    && (forall p :: p in row.problems <==> p in health.problems)
  }

  lemma {:induction false} UniqueProblemsComplete(problems: seq<Problem>, from: nat, p: Problem)
    requires from <= |ALL_PROBLEMS| && p in problems && !p.OtherProblem? && ProblemRank(p) >= from
    ensures p in SortedUniqueProblems(problems, from)
    decreases |ALL_PROBLEMS| - from
  {
    assert forall k :: 0 <= k < |ALL_PROBLEMS| ==> ProblemRank(ALL_PROBLEMS[k]) == k;
    assert ALL_PROBLEMS[ProblemRank(p)] == p;
    if ProblemRank(p) > from {
      UniqueProblemsComplete(problems, from + 1, p);
    }
  }

  lemma {:induction false} SmallestFirst(problems: seq<Problem>, p: Problem)
    requires SortedProblems(problems) && p in problems
    ensures ProblemRank(problems[0]) <= ProblemRank(p) && (p != problems[0] ==> ProblemRank(problems[0]) < ProblemRank(p))
  {
    if p != problems[0] {
      SmallestFirst(problems[1..], p);
    }
  }

  /** Two sorted lists of known problems with the same elements are the same list. */
  lemma {:induction false} SameSortedProblems(a: seq<Problem>, b: seq<Problem>)
    requires SortedProblems(a) && SortedProblems(b) && forall p :: p in a <==> p in b
    ensures a == b
  {
    assert (a != [] ==> a[0] in b) && (b != [] ==> b[0] in a);
    if a != [] {
      SmallestFirst(a, b[0]);
      SmallestFirst(b, a[0]);
      assert a == [a[0]] + a[1..] && b == [b[0]] + b[1..];
      forall p
        ensures p in a[1..] <==> p in b[1..]
      {
        if p in a[1..] {
          assert p in a;
          LaterIsLarger(a, p);
        }
        if p in b[1..] {
          assert p in b;
          LaterIsLarger(b, p);
        }
      }
      SameSortedProblems(a[1..], b[1..]);
    }
  }

  lemma {:induction false} LaterIsLarger(problems: seq<Problem>, p: Problem)
    requires SortedProblems(problems) && problems != [] && p in problems[1..]
    ensures ProblemRank(problems[0]) < ProblemRank(p)
  {
    SmallestFirst(problems[1..], p);
  }

  lemma {:induction false} UniqueCapabilities(capabilities: seq<Capability>, order: seq<Capability>)
    ensures (forall c <- order :: c in capabilities) ==> SortedUniqueCapabilities(capabilities, order) == order
    ensures capabilities == [] ==> SortedUniqueCapabilities(capabilities, order) == []
    ensures forall c :: c in SortedUniqueCapabilities(capabilities, order) <==> c in order && c in capabilities
  {
    if order != [] {
      UniqueCapabilities(capabilities, order[1..]);
      assert order == [order[0]] + order[1..];
    }
  }

  lemma ProblemsRestored(name: Name, given: seq<Problem>, wanted: seq<Problem>)
    requires SortedProblems(wanted) && forall p <- wanted :: ProblemAllowed(name, p)
    requires forall p :: p in wanted <==> p in given
    ensures SortedUniqueProblems(given, 0) == wanted
  {
    hide ProblemAllowed;
    UniqueProblemsSorted(given, 0);
    forall p | p in wanted
      ensures p in SortedUniqueProblems(given, 0)
    {
      AllowedIsKnown(name, p);
      UniqueProblemsComplete(given, 0, p);
    }
    hide SortedUniqueProblems, SortedProblems;
    SameSortedProblems(SortedUniqueProblems(given, 0), wanted);
  }

  lemma CapabilitiesRestored(given: seq<Capability>, wanted: seq<Capability>, order: seq<Capability>)
    requires wanted == order || wanted == []
    requires forall c :: c in wanted <==> c in given
    ensures SortedUniqueCapabilities(given, order) == wanted && forall c <- given :: c in order
  {
    UniqueCapabilities(given, order);
    assert given != [] ==> given[0] in wanted;
  }

  lemma ProofCapabilities(identifier: char -> bool, row: Row, interval: Range)
    requires ProofRow(identifier, row, interval)
    ensures row.capabilities == ReadyCapabilities(row.name) || row.capabilities == []
  {
  }

  /** An answer that makes sense is reported as it was given: any acceptable row that repeats it is the result. */
  lemma SensibleAnswerKept(identifier: char -> bool, name: Name, interval: Range, health: Row, row: Row)
    requires row.name == name && Sound(row) && ProofRow(identifier, row, interval) && Repeats(row, health)
    ensures CanonicalizeHealth(identifier, name, interval, health) == row
  {
    hide ProofRow, ReadyCapabilities, SortedUniqueCapabilities, SortedUniqueProblems, ProblemAllowed, SortedProblems,
         SortedCapabilities, ValidAuthValue, MalformedRow;
    ProofCapabilities(identifier, row, interval);
    CapabilitiesRestored(health.capabilities, row.capabilities, ReadyCapabilities(name));
    ProblemsRestored(name, health.problems, row.problems);
    KnownStatus(identifier, row, interval);
  }

  lemma KnownStatus(identifier: char -> bool, row: Row, interval: Range)
    requires ProofRow(identifier, row, interval)
    ensures !row.status.OtherStatus?
  {
  }

  lemma AllowedIsKnown(name: Name, p: Problem)
    requires ProblemAllowed(name, p)
    ensures !p.OtherProblem?
  {
  }

  /** Nothing is made up: the row repeats the answer or is the malformed one. */
  lemma RepeatedOrMalformed(identifier: char -> bool, name: Name, interval: Range, health: Row)
    ensures var row := CanonicalizeHealth(identifier, name, interval, health);
            row == MalformedRow(name) || Repeats(row, health)
  {
    hide ProofRow, ReadyCapabilities, SortedUniqueCapabilities, SortedUniqueProblems, ProblemAllowed, MalformedRow;
    UniqueCapabilities(health.capabilities, ReadyCapabilities(name));
    UniqueProblemsSorted(health.problems, 0);
    forall p | p in health.problems && ProblemAllowed(name, p)
      ensures p in SortedUniqueProblems(health.problems, 0)
    {
      AllowedIsKnown(name, p);
      UniqueProblemsComplete(health.problems, 0, p);
    }
  }

  /** An unreadable version is always listed, so a probed row is neither skipped nor a finding made before the probe. */
  lemma ProofIsNoPreprobe(identifier: char -> bool, row: Row, interval: Range)
    requires ProofRow(identifier, row, interval)
    ensures !PreprobeRow(row) && !IsSkipped(row)
  {
    if row.version == "" {
      var capabilities, auth := CapabilityVerdict(row).value, AuthVerdict(row).value;
      SortKeeps([VersionUnreadable] + capabilities.problems + auth.problems, VersionUnreadable);
    }
  }

  lemma {:induction false} InsertKeeps(sorted: seq<Problem>, p: Problem, q: Problem)
    ensures q in InsertProblem(sorted, p) <==> q == p || q in sorted
  {
    if sorted != [] && ProblemRank(p) > ProblemRank(sorted[0]) {
      InsertKeeps(sorted[1..], p, q);
      assert sorted == [sorted[0]] + sorted[1..];
    }
  }

  lemma {:induction false} SortKeeps(problems: seq<Problem>, q: Problem)
    ensures q in SortProblems(problems) <==> q in problems
  {
    if problems != [] {
      SortKeeps(problems[1..], q);
      InsertKeeps(SortProblems(problems[1..]), problems[0], q);
      assert problems == [problems[0]] + problems[1..];
    }
  }

  /** What the file system and the environment say of one provider. */
  datatype Evidence = Evidence(executableMissing: bool, executableUnsafe: bool, configUnsafe: bool,
                               credentialMissing: bool, credentialFileUnsafe: bool)

  /** The finding made before any probe: the first that applies, in this order. */
  function Finding(name: Name, credentials: nat, found: Evidence): Option<Problem> {
    if found.executableMissing then Some(ExecutableMissing)
    else if found.executableUnsafe then Some(ExecutableUnsafe)
    else if found.configUnsafe then Some(ConfigHomeUnsafe)
    else if credentials > 0 && found.credentialMissing then Some(CredentialMissing)
    else if name.Gemini? && found.credentialFileUnsafe then Some(CredentialFileUnsafe)
    else None
  }

  /** The row of one provider: its finding, or else what the adapter answers. */
  function ResolvedRow(identifier: char -> bool, name: Name, credentials: nat, interval: Range, found: Evidence, health: Row): Row {
    match Finding(name, credentials, found)
    case Some(p) => Row(name, NotReady, "", if p.CredentialMissing? then Missing else UnknownAuth, [], [p])
    case None => CanonicalizeHealth(identifier, name, interval, health)
  }

  /** The problems found before any probe, in the order they are looked for. */
  const PREPROBE_PROBLEMS: seq<Problem> := [ExecutableMissing, ExecutableUnsafe, ConfigHomeUnsafe, CredentialMissing, CredentialFileUnsafe]

  /** The evidence of one of these problems. */
  ghost predicate Shown(name: Name, credentials: nat, found: Evidence, p: Problem) {
    || (p == ExecutableMissing && found.executableMissing)
    || (p == ExecutableUnsafe && found.executableUnsafe)
    || (p == ConfigHomeUnsafe && found.configUnsafe)
    || (p == CredentialMissing && credentials > 0 && found.credentialMissing)
    || (p == CredentialFileUnsafe && name == Gemini && found.credentialFileUnsafe)
  }

  /** There is evidence of this problem and of none that is looked for before it. */
  ghost predicate FirstShown(name: Name, credentials: nat, found: Evidence, p: Problem) {
    exists k | 0 <= k < 5 ::
      && PREPROBE_PROBLEMS[k] == p && Shown(name, credentials, found, p)
      && forall j | 0 <= j < k :: !Shown(name, credentials, found, PREPROBE_PROBLEMS[j])
  }

  ghost predicate NothingShown(name: Name, credentials: nat, found: Evidence) {
    forall p :: !Shown(name, credentials, found, p)
  }

  /** An acceptable row that repeats the adapter's answer. */
  ghost predicate Repeated(identifier: char -> bool, name: Name, interval: Range, health: Row, row: Row) {
    row.name == name && Sound(row) && ProofRow(identifier, row, interval) && Repeats(row, health)
  }

  /** What is reported of an adapter's answer: the answer when it makes sense, and otherwise that nothing is known. */
  ghost predicate Reported(identifier: char -> bool, name: Name, interval: Range, health: Row, row: Row) {
    || Repeated(identifier, name, interval, health, row)
    || (row == Row(name, NotReady, "", UnknownAuth, [], [AuthUnknown, CapabilityMissing, VersionUnreadable])
        && forall other :: !Repeated(identifier, name, interval, health, other))
  }

  /** What the row of one provider must say: the first problem there is evidence of, or else the adapter's answer. */
  ghost predicate RowStates(identifier: char -> bool, name: Name, credentials: nat, interval: Range, found: Evidence, health: Row, row: Row) {
    && (forall p | FirstShown(name, credentials, found, p) ::
          row == Row(name, NotReady, "", if p == CredentialMissing then Missing else UnknownAuth, [], [p]))
    && (NothingShown(name, credentials, found) ==> Reported(identifier, name, interval, health, row))
  }

  lemma FindingIs(name: Name, credentials: nat, found: Evidence)
    ensures forall p :: Finding(name, credentials, found) == Some(p) <==> FirstShown(name, credentials, found, p)
    ensures Finding(name, credentials, found) == None <==> NothingShown(name, credentials, found)
  {
    match Finding(name, credentials, found)
    case None =>
    case Some(p) =>
      var k := match p case ExecutableMissing => 0 case ExecutableUnsafe => 1 case ConfigHomeUnsafe => 2 case CredentialMissing => 3 case _ => 4;
      assert PREPROBE_PROBLEMS[k] == p && Shown(name, credentials, found, p);
      assert FirstShown(name, credentials, found, p);
      forall q | FirstShown(name, credentials, found, q)
        ensures q == p
      {
        OneFirst(name, credentials, found, p, q);
      }
  }

  lemma OneFirst(name: Name, credentials: nat, found: Evidence, p: Problem, q: Problem)
    requires FirstShown(name, credentials, found, p) && FirstShown(name, credentials, found, q)
    ensures p == q
  {
    hide Shown;
    var i :| 0 <= i < 5 && PREPROBE_PROBLEMS[i] == p && Shown(name, credentials, found, p)
             && forall j | 0 <= j < i :: !Shown(name, credentials, found, PREPROBE_PROBLEMS[j]);
    var k :| 0 <= k < 5 && PREPROBE_PROBLEMS[k] == q && Shown(name, credentials, found, q)
             && forall j | 0 <= j < k :: !Shown(name, credentials, found, PREPROBE_PROBLEMS[j]);
    assert i == k;
  }

  lemma CanonicalIsReported(identifier: char -> bool, name: Name, interval: Range, health: Row)
    ensures Reported(identifier, name, interval, health, CanonicalizeHealth(identifier, name, interval, health))
  {
    var row := CanonicalizeHealth(identifier, name, interval, health);
    if name.OtherName? {
      return;
    }
    CanonicalRowAccepted(identifier, name, interval, health);
    RepeatedOrMalformed(identifier, name, interval, health);
    hide CanonicalizeHealth, ProofRow, Sound, Repeats;
    if other :| Repeated(identifier, name, interval, health, other) {
      SensibleAnswerKept(identifier, name, interval, health, other);
    }
  }

  lemma ResolvedRowStates(identifier: char -> bool, name: Name, credentials: nat, interval: Range, found: Evidence, health: Row)
    ensures RowStates(identifier, name, credentials, interval, found, health,
                      ResolvedRow(identifier, name, credentials, interval, found, health))
  {
    FindingIs(name, credentials, found);
    CanonicalIsReported(identifier, name, interval, health);
    hide Finding, FirstShown, NothingShown, Reported, CanonicalizeHealth;
  }

  /** Every resolved row is acceptable, and is a finding made before the probe exactly when there was no probe. */
  lemma ResolvedRowAccepted(identifier: char -> bool, name: Name, credentials: nat, interval: Range, found: Evidence, health: Row)
    requires !name.OtherName? && (name.Codex? ==> credentials == 0)
    ensures var row := ResolvedRow(identifier, name, credentials, interval, found, health);
            && row.name == name && !IsSkipped(row) && DiagnosisAccepts(identifier, row, interval)
            && (PreprobeRow(row) <==> Finding(name, credentials, found).Some?)
            && (Finding(name, credentials, found).None? ==> ProofRow(identifier, row, interval))
  {
    hide CanonicalizeHealth, ProofRow, PreprobeRow, IsSkipped, Sound;
    if Finding(name, credentials, found).None? {
      CanonicalRowAccepted(identifier, name, interval, health);
    } else {
      FindingAccepted(identifier, name, credentials, interval, found, health);
    }
  }

  lemma FindingAccepted(identifier: char -> bool, name: Name, credentials: nat, interval: Range, found: Evidence, health: Row)
    requires !name.OtherName? && (name.Codex? ==> credentials == 0) && Finding(name, credentials, found).Some?
    ensures var row := ResolvedRow(identifier, name, credentials, interval, found, health);
            row.name == name && !IsSkipped(row) && Sound(row) && PreprobeRow(row)
  {
  }

  method ResolveProvider(identifier: char -> bool, name: Name, credentials: nat, interval: Range, found: Evidence, health: Row)
    returns (row: Row, probed: bool)
    ensures row == ResolvedRow(identifier, name, credentials, interval, found, health)
    ensures RowStates(identifier, name, credentials, interval, found, health, row)
    ensures probed <==> NothingShown(name, credentials, found)
    ensures forall p :: !probed && row.problems == [p] <==> FirstShown(name, credentials, found, p)
  {
    hide FirstShown, NothingShown, RowStates, CanonicalizeHealth;
    FindingIs(name, credentials, found);
    ResolvedRowStates(identifier, name, credentials, interval, found, health);
    var baseSafe := !found.executableMissing && !found.executableUnsafe && !found.configUnsafe;
    var credentialMissing, credentialFileUnsafe := false, false;
    if baseSafe {
      credentialMissing := credentials > 0 && found.credentialMissing;
      credentialFileUnsafe := name.Gemini? && found.credentialFileUnsafe;
    }
    var problem: Option<Problem> :=
      if found.executableMissing then Some(ExecutableMissing)
      else if found.executableUnsafe then Some(ExecutableUnsafe)
      else if found.configUnsafe then Some(ConfigHomeUnsafe)
      else if credentialMissing then Some(CredentialMissing)
      else if credentialFileUnsafe then Some(CredentialFileUnsafe)
      else None;
    if problem.Some? {
      row := Row(name, NotReady, "", if problem.value.CredentialMissing? then Missing else UnknownAuth, [], [problem.value]);
      return row, false;
    }
    row := CanonicalizeHealth(identifier, name, interval, health);
    probed := true;
  }
}
