/** Provider health rows: the rules of the diagnosis and those of the gateway, which agree. */
module Health {
  import opened Decimal
  import opened Options
  import opened Version

  datatype Name = Claude | Codex | Gemini | OtherName

  datatype Status = Ready | NotReady | Unknown | OtherStatus

  datatype Auth = Authenticated | Configured | Missing | UnknownAuth | OtherAuth

  /** In alphabetical order of their texts. */
  datatype Problem = AuthMissing | AuthUnknown | CapabilityMissing | ConfigHomeUnsafe | CredentialFileUnsafe
                   | CredentialMissing | ExecutableMissing | ExecutableUnsafe | VersionUnreadable | VersionUnsupported
                   | OtherProblem(text: string)

  /** In alphabetical order of their texts. */
  datatype Capability = DisposableHome | EmptyCoreTools | EmptySettings | EmptyTools | Ephemeral | ExtensionsDisabled
                      | FeatureHardening | JsonEnvelope | NeverApprove | NoSessionPersistence | ReadOnly | SafeMode
                      | SchemaFile | StdinPrompt | SystemSettingsIsolated | OtherCapability(text: string)

  datatype Row = Row(name: Name, status: Status, version: string, auth: Auth,
                     capabilities: seq<Capability>, problems: seq<Problem>)

  // ---- order ----

  const ALL_PROBLEMS: seq<Problem> :=
    [AuthMissing, AuthUnknown, CapabilityMissing, ConfigHomeUnsafe, CredentialFileUnsafe,
     CredentialMissing, ExecutableMissing, ExecutableUnsafe, VersionUnreadable, VersionUnsupported]

  function ProblemRank(p: Problem): nat {
    match p
    case AuthMissing => 0
    case AuthUnknown => 1
    case CapabilityMissing => 2
    case ConfigHomeUnsafe => 3
    case CredentialFileUnsafe => 4
    case CredentialMissing => 5
    case ExecutableMissing => 6
    case ExecutableUnsafe => 7
    case VersionUnreadable => 8
    case VersionUnsupported => 9
    case OtherProblem(_) => 10
  }

  function ProblemText(p: Problem): string {
    match p
    case AuthMissing => "auth_missing"
    case AuthUnknown => "auth_unknown"
    case CapabilityMissing => "capability_missing"
    case ConfigHomeUnsafe => "config_home_unsafe"
    case CredentialFileUnsafe => "credential_file_unsafe"
    case CredentialMissing => "credential_missing"
    case ExecutableMissing => "executable_missing"
    case ExecutableUnsafe => "executable_unsafe"
    case VersionUnreadable => "version_unreadable"
    case VersionUnsupported => "version_unsupported"
    case OtherProblem(text) => text
  }

  function CapabilityRank(c: Capability): nat {
    match c
    case DisposableHome => 0
    case EmptyCoreTools => 1
    case EmptySettings => 2
    case EmptyTools => 3
    case Ephemeral => 4
    case ExtensionsDisabled => 5
    case FeatureHardening => 6
    case JsonEnvelope => 7
    case NeverApprove => 8
    case NoSessionPersistence => 9
    case ReadOnly => 10
    case SafeMode => 11
    case SchemaFile => 12
    case StdinPrompt => 13
    case SystemSettingsIsolated => 14
    case OtherCapability(_) => 15
  }

  /** Text `a` sorts before `b` when it is smaller at the first difference. */
  ghost predicate TextBefore(a: string, b: string) {
    exists k :: FirstDifference(a, b, k)
  }

  ghost predicate FirstDifference(a: string, b: string, k: nat) {
    && k <= |a| && k < |b| && a[..k] == b[..k]
    && (k == |a| || a[k] < b[k])
  }

  /** The ranks follow the texts: neighbours of the list are in text order. */
  lemma ProblemsAreAlphabetical()
    ensures forall i :: 0 <= i < |ALL_PROBLEMS| ==> ProblemRank(ALL_PROBLEMS[i]) == i
    ensures forall i :: 0 <= i < |ALL_PROBLEMS| - 1 ==> TextBefore(ProblemText(ALL_PROBLEMS[i]), ProblemText(ALL_PROBLEMS[i + 1]))
  {
    assert FirstDifference("auth_missing", "auth_unknown", 5);
    assert FirstDifference("auth_unknown", "capability_missing", 0);
    assert FirstDifference("capability_missing", "config_home_unsafe", 1);
    assert FirstDifference("config_home_unsafe", "credential_file_unsafe", 1);
    assert FirstDifference("credential_file_unsafe", "credential_missing", 11);
    assert FirstDifference("credential_missing", "executable_missing", 0);
    assert FirstDifference("executable_missing", "executable_unsafe", 11);
    assert FirstDifference("executable_unsafe", "version_unreadable", 0);
    assert FirstDifference("version_unreadable", "version_unsupported", 10);
  }

  ghost function CapabilityText(c: Capability): string {
    match c
    case DisposableHome => "disposable_home"
    case EmptyCoreTools => "empty_core_tools"
    case EmptySettings => "empty_settings"
    case EmptyTools => "empty_tools"
    case Ephemeral => "ephemeral"
    case ExtensionsDisabled => "extensions_disabled"
    case FeatureHardening => "feature_hardening"
    case JsonEnvelope => "json_envelope"
    case NeverApprove => "never_approve"
    case NoSessionPersistence => "no_session_persistence"
    case ReadOnly => "read_only"
    case SafeMode => "safe_mode"
    case SchemaFile => "schema_file"
    case StdinPrompt => "stdin_prompt"
    case SystemSettingsIsolated => "system_settings_isolated"
    case OtherCapability(text) => text
  }

  const ALL_CAPABILITIES: seq<Capability> :=
    [DisposableHome, EmptyCoreTools, EmptySettings, EmptyTools, Ephemeral, ExtensionsDisabled, FeatureHardening, JsonEnvelope,
     NeverApprove, NoSessionPersistence, ReadOnly, SafeMode, SchemaFile, StdinPrompt, SystemSettingsIsolated]

  lemma CapabilityRanks()
    ensures forall i :: 0 <= i < |ALL_CAPABILITIES| ==> CapabilityRank(ALL_CAPABILITIES[i]) == i
  {
  }

  lemma EarlierCapabilities()
    ensures forall i :: 0 <= i < 5 ==> TextBefore(CapabilityText(ALL_CAPABILITIES[i]), CapabilityText(ALL_CAPABILITIES[i + 1]))
  {
    assert FirstDifference("disposable_home", "empty_core_tools", 0);
    assert FirstDifference("empty_core_tools", "empty_settings", 6);
    assert FirstDifference("empty_settings", "empty_tools", 6);
    assert FirstDifference("empty_tools", "ephemeral", 1);
    assert FirstDifference("ephemeral", "extensions_disabled", 1);
  }

  lemma MiddleCapabilities()
    ensures forall i :: 5 <= i < 10 ==> TextBefore(CapabilityText(ALL_CAPABILITIES[i]), CapabilityText(ALL_CAPABILITIES[i + 1]))
  {
    assert FirstDifference("extensions_disabled", "feature_hardening", 0);
    assert FirstDifference("feature_hardening", "json_envelope", 0);
    assert FirstDifference("json_envelope", "never_approve", 0);
    assert FirstDifference("never_approve", "no_session_persistence", 1);
    assert FirstDifference("no_session_persistence", "read_only", 0);
  }

  lemma LaterCapabilities()
    ensures forall i :: 10 <= i < 14 ==> TextBefore(CapabilityText(ALL_CAPABILITIES[i]), CapabilityText(ALL_CAPABILITIES[i + 1]))
  {
    assert FirstDifference("read_only", "safe_mode", 0);
    assert FirstDifference("safe_mode", "schema_file", 1);
    assert FirstDifference("schema_file", "stdin_prompt", 1);
    assert FirstDifference("stdin_prompt", "system_settings_isolated", 1);
  }

  /** The same for capabilities. */
  lemma CapabilitiesAreAlphabetical()
    ensures forall i :: 0 <= i < |ALL_CAPABILITIES| ==> CapabilityRank(ALL_CAPABILITIES[i]) == i
    ensures forall i :: 0 <= i < |ALL_CAPABILITIES| - 1 ==>
              TextBefore(CapabilityText(ALL_CAPABILITIES[i]), CapabilityText(ALL_CAPABILITIES[i + 1]))
  {
    CapabilityRanks();
    EarlierCapabilities();
    MiddleCapabilities();
    LaterCapabilities();
    hide TextBefore, CapabilityText, CapabilityRank;
  }

  predicate SortedProblems(problems: seq<Problem>) {
    forall i :: 0 < i < |problems| ==> ProblemRank(problems[i - 1]) < ProblemRank(problems[i])
  }

  predicate SortedCapabilities(capabilities: seq<Capability>) {
    forall i :: 0 < i < |capabilities| ==> CapabilityRank(capabilities[i - 1]) < CapabilityRank(capabilities[i])
  }

  /** Sorted lists are in order throughout, and so have nothing twice. */
  lemma {:induction false} SortedThroughout(problems: seq<Problem>, i: nat, j: nat)
    requires i < j < |problems|
    ensures SortedProblems(problems) ==> ProblemRank(problems[i]) < ProblemRank(problems[j])
  {
    if i + 1 < j && SortedProblems(problems) {
      SortedThroughout(problems, i, j - 1);
      assert ProblemRank(problems[j - 1]) < ProblemRank(problems[j]);
    }
  }

  lemma {:induction false} CapabilitiesThroughout(capabilities: seq<Capability>, i: nat, j: nat)
    requires i < j < |capabilities|
    ensures SortedCapabilities(capabilities) ==> CapabilityRank(capabilities[i]) < CapabilityRank(capabilities[j])
  {
    if i + 1 < j && SortedCapabilities(capabilities) {
      CapabilitiesThroughout(capabilities, i, j - 1);
      assert CapabilityRank(capabilities[j - 1]) < CapabilityRank(capabilities[j]);
    }
  }

  function InsertProblem(sorted: seq<Problem>, p: Problem): seq<Problem> {
    if sorted == [] || ProblemRank(p) <= ProblemRank(sorted[0]) then [p] + sorted
    else [sorted[0]] + InsertProblem(sorted[1..], p)
  }

  function SortProblems(problems: seq<Problem>): seq<Problem> {
    if problems == [] then [] else InsertProblem(SortProblems(problems[1..]), problems[0])
  }

  // ---- the shared vocabulary ----

  function ReadyCapabilities(name: Name): seq<Capability> {
    match name
    case Claude => [EmptySettings, EmptyTools, JsonEnvelope, NoSessionPersistence, SafeMode, StdinPrompt]
    case Codex => [Ephemeral, FeatureHardening, NeverApprove, ReadOnly, SchemaFile, StdinPrompt]
    case Gemini => [DisposableHome, EmptyCoreTools, ExtensionsDisabled, JsonEnvelope, StdinPrompt, SystemSettingsIsolated]
    case OtherName => []
  }

  /** The same vocabulary, capability by capability. */
  ghost predicate Offers(name: Name, c: Capability) {
    || (c == StdinPrompt && name != OtherName)
    || (c == JsonEnvelope && name in {Claude, Gemini})
    || (c in {EmptySettings, EmptyTools, NoSessionPersistence, SafeMode} && name == Claude)
    || (c in {Ephemeral, FeatureHardening, NeverApprove, ReadOnly, SchemaFile} && name == Codex)
    || (c in {DisposableHome, EmptyCoreTools, ExtensionsDisabled, SystemSettingsIsolated} && name == Gemini)
  }

  lemma ReadyCapabilitiesAre(name: Name)
    ensures forall c :: c in ReadyCapabilities(name) <==> Offers(name, c)
    ensures SortedCapabilities(ReadyCapabilities(name))
  {
  }

  // ---- the diagnosis' rules ----

  predicate ProblemAllowed(name: Name, p: Problem) {
    match name
    case Codex =>
      !p.CredentialMissing? && !p.CredentialFileUnsafe? && !p.OtherProblem?
    case Claude =>
      !p.CredentialFileUnsafe? && !p.OtherProblem?
    case Gemini =>
      !p.AuthMissing? && !p.OtherProblem?
    case OtherName => false
  }

  predicate ValidAuthValue(name: Name, auth: Auth) {
    match name
    case Codex => auth.Authenticated? || auth.Missing? || auth.UnknownAuth?
    case Claude => auth.Authenticated? || auth.Missing? || auth.UnknownAuth?
    case Gemini => auth.Configured? || auth.Missing? || auth.UnknownAuth?
    case OtherName => false
  }

  /** A verdict on one aspect of a row: whether it is in order, and the problems it must list. */
  datatype Verdict = Verdict(ready: bool, unknown: bool, problems: seq<Problem>)

  function VersionVerdict(identifier: char -> bool, version: string, interval: Range): Option<Verdict> {
    if version == "" then Some(Verdict(false, false, [VersionUnreadable]))
    else
      var parsed := ParseVersion(identifier, version);
      if parsed.None? || parsed.value.Text() != version then None
      else if !interval.Contains(parsed.value) then Some(Verdict(false, false, [VersionUnsupported]))
      else Some(Verdict(true, false, []))
  }

  function CapabilityVerdict(row: Row): Option<Verdict> {
    if row.capabilities == ReadyCapabilities(row.name) then Some(Verdict(true, false, []))
    else if row.capabilities == [] then Some(Verdict(false, false, [CapabilityMissing]))
    else None
  }

  function AuthVerdict(row: Row): Option<Verdict> {
    match row.name
    case OtherName => None
    case Gemini =>
      (match row.auth
       case Configured => Some(Verdict(true, false, []))
       case Missing => Some(Verdict(false, false, [CredentialMissing]))
       case UnknownAuth => Some(Verdict(false, true, [AuthUnknown]))
       case _ => None)
    case _ =>
      match row.auth
      case Authenticated => Some(Verdict(true, false, []))
      case Missing => Some(Verdict(false, false, [AuthMissing]))
      case UnknownAuth => Some(Verdict(false, true, [AuthUnknown]))
      case _ => None
  }

  function ExpectedStatus(name: Name, version: Verdict, capabilities: Verdict, auth: Verdict): Status {
    if version.ready && capabilities.ready && auth.ready then Ready
    else if version.ready && capabilities.ready && auth.unknown && !name.Gemini? then Unknown
    else NotReady
  }

  predicate ProofRow(identifier: char -> bool, row: Row, interval: Range) {
    var version, capabilities, auth := VersionVerdict(identifier, row.version, interval), CapabilityVerdict(row), AuthVerdict(row);
    && version.Some? && capabilities.Some? && auth.Some?
    && row.problems == SortProblems(version.value.problems + capabilities.value.problems + auth.value.problems)
    && row.status == ExpectedStatus(row.name, version.value, capabilities.value, auth.value)
  }

  predicate PreprobeRow(row: Row) {
    && row.status.NotReady? && row.version == "" && row.capabilities == [] && |row.problems| == 1
    && match row.problems[0]
       case ExecutableMissing => row.auth.UnknownAuth?
       case ExecutableUnsafe => row.auth.UnknownAuth?
       case ConfigHomeUnsafe => row.auth.UnknownAuth?
       case CredentialMissing => (row.name.Claude? || row.name.Gemini?) && row.auth.Missing?
       case CredentialFileUnsafe => row.name.Gemini? && row.auth.UnknownAuth?
       case _ => false
  }

  predicate Sound(row: Row) {
    && SortedCapabilities(row.capabilities) && SortedProblems(row.problems) && ValidAuthValue(row.name, row.auth)
    && forall p <- row.problems :: ProblemAllowed(row.name, p)
  }

  /** What the report validator accepts of a row that was not skipped. */
  predicate DiagnosisAccepts(identifier: char -> bool, row: Row, interval: Range) {
    Sound(row) && (PreprobeRow(row) || ProofRow(identifier, row, interval))
  }

  // ---- the gateway's rules ----

  predicate StartupProblemAllowed(name: Name, p: Problem) {
    match p
    case AuthMissing => name.Codex? || name.Claude?
    case CredentialMissing => name.Claude? || name.Gemini?
    case CredentialFileUnsafe => name.Gemini?
    case OtherProblem(_) => false
    case _ => true
  }

  predicate GatewayPreprobe(row: Row) {
    && row.status.NotReady? && row.version == "" && row.capabilities == [] && |row.problems| == 1
    && match row.problems[0]
       case ExecutableMissing => row.auth.UnknownAuth?
       case ExecutableUnsafe => row.auth.UnknownAuth?
       case ConfigHomeUnsafe => row.auth.UnknownAuth?
       case CredentialFileUnsafe => row.auth.UnknownAuth?
       case CredentialMissing => row.auth.Missing?
       case _ => false
  }

  /** Whether the authentication is in order or unknown, and the problem it must list. */
  function GatewayAuth(name: Name, auth: Auth): Verdict {
    match name
    case OtherName => Verdict(false, false, [])
    case Gemini =>
      (match auth
       case Configured => Verdict(true, false, [])
       case Missing => Verdict(false, false, [CredentialMissing])
       case UnknownAuth => Verdict(false, true, [AuthUnknown])
       case _ => Verdict(false, false, []))
    case _ =>
      match auth
      case Authenticated => Verdict(true, false, [])
      case Missing => Verdict(false, false, [AuthMissing])
      case UnknownAuth => Verdict(false, true, [AuthUnknown])
      case _ => Verdict(false, false, [])
  }

  predicate GatewayAccepts(identifier: char -> bool, row: Row, interval: Range) {
    && !row.name.OtherName? && !row.status.OtherStatus?
    && IsCanonicalVersion(row.version)
    && SortedCapabilities(row.capabilities) && SortedProblems(row.problems)
    && (var auth := GatewayAuth(row.name, row.auth); auth.ready || auth.unknown || row.auth.Missing?)
    && (forall c <- row.capabilities :: c in ReadyCapabilities(row.name))
    && (forall p <- row.problems :: StartupProblemAllowed(row.name, p))
    && (GatewayPreprobe(row) || GatewayProof(identifier, row, interval))
  }

  predicate GatewayProof(identifier: char -> bool, row: Row, interval: Range) {
    var parsed := ParseVersion(identifier, row.version);
    if row.version != "" && (parsed.None? || parsed.value.Text() != row.version) then false
    else
      var versionReady := row.version != "" && interval.Contains(parsed.value);
      var versionProblems := if row.version == "" then [VersionUnreadable] else if versionReady then [] else [VersionUnsupported];
      var capabilitiesReady := row.capabilities == ReadyCapabilities(row.name);
      if !capabilitiesReady && row.capabilities != [] then false
      else
        var capabilityProblems := if capabilitiesReady then [] else [CapabilityMissing];
        var auth := GatewayAuth(row.name, row.auth);
        && row.problems == SortProblems(versionProblems + capabilityProblems + auth.problems)
        && row.status == (if versionReady && capabilitiesReady && auth.ready then Ready
                          else if versionReady && capabilitiesReady && auth.unknown && !row.name.Gemini? then Unknown
                          else NotReady)
  }

  /**
   The two sets of rules accept the same rows, but for the gateway's limit of 32 bytes on
   the version; a version the diagnosis accepts is empty or the print of a 64-bit version.
   */
  lemma ValidatorsAgree(identifier: char -> bool, row: Row, interval: Range)
    ensures GatewayAccepts(identifier, row, interval) <==>
            DiagnosisAccepts(identifier, row, interval) && |row.version| <= MAX_VERSION_BYTES
  {
    hide ParseVersion, IsCanonicalVersion, SortProblems;
    CanonicalVersionIs(row.version);
    ParsesToItself(identifier, row.version);
    ProblemsAllowedAlike(row);
    AuthAlike(row);
    if ProofRow(identifier, row, interval) || GatewayProof(identifier, row, interval) {
      ReadyInOrder(row);
    }
  }

  lemma ProblemsAllowedAlike(row: Row)
    ensures !row.name.OtherName? ==>
              ((forall p <- row.problems :: ProblemAllowed(row.name, p)) <==> (forall p <- row.problems :: StartupProblemAllowed(row.name, p)))
    ensures (forall p <- row.problems :: StartupProblemAllowed(row.name, p)) && !row.name.OtherName? ==>
              (GatewayPreprobe(row) <==> PreprobeRow(row))
  {
    forall p: Problem
      ensures !row.name.OtherName? ==> (ProblemAllowed(row.name, p) <==> StartupProblemAllowed(row.name, p))
    {
    }
    if |row.problems| == 1 {
      assert row.problems[0] in row.problems;
    }
  }

  lemma AuthAlike(row: Row)
    ensures var g := GatewayAuth(row.name, row.auth);
            && (ValidAuthValue(row.name, row.auth) <==> !row.name.OtherName? && (g.ready || g.unknown || row.auth.Missing?))
            && (ValidAuthValue(row.name, row.auth) <==> AuthVerdict(row).Some?)
            && (AuthVerdict(row).Some? ==> AuthVerdict(row).value == g)
  {
  }

  lemma ReadyInOrder(row: Row)
    ensures row.capabilities == ReadyCapabilities(row.name) || row.capabilities == [] ==>
              forall c <- row.capabilities :: c in ReadyCapabilities(row.name)
  {
  }
}
