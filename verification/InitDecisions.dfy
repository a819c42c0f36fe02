/** Deciding collisions: what the decisions do to the options, and what planning then finds. */
module InitDecisions {
  import opened InitAgreement
  import opened InitChecker
  import opened InitMerge
  import opened InitPlan
  import opened Options
  import opened SetSizes

  datatype AuthId = ConfigHome | AnthropicApiKey | GeminiApiKey | GoogleApiKey | VertexServiceAccount

  datatype Input = Input(executable: Option<string>, entrypoint: Option<string>, configHome: Option<string>, auth: Option<AuthId>)

  const NO_INPUT := Input(None, None, None, None)

  datatype GatewayAuth = FileAuth | EnvironmentAuth | NoAuth

  datatype GatewayInput = GatewayInput(auth: Option<GatewayAuth>, keyFile: Option<string>, keyEnv: Option<string>)

  /** `inputs` holds the provider flags; a provider without an entry has none. */
  datatype Flags = Flags(providers: seq<string>, inputs: map<string, Input>, models: seq<Mapping>, gateway: GatewayInput,
                         replaceProviders: seq<string>, replaceModels: seq<string>)

  datatype Choice = Replace | KeepExisting

  datatype Decision = Decision(target: DiffTarget, name: string, choice: Choice)

  function InputAt(o: Flags, name: string): Input {
    if name in o.inputs then o.inputs[name] else NO_INPUT
  }

  // ---- valid options ----

  ghost predicate SafeOption(printable: char -> bool, s: Option<string>) {
    s.Some? ==> SafeText(printable, s.value)
  }

  predicate ValidAuth(name: string, auth: Option<AuthId>) {
    match auth
    case None => true
    case Some(a) =>
      || (name == "claude" && (a.ConfigHome? || a.AnthropicApiKey?))
      || (name == "gemini" && (a.GeminiApiKey? || a.GoogleApiKey? || a.VertexServiceAccount?))
  }

  ghost predicate ValidFlags(printable: char -> bool, o: Flags) {
    && o.providers != [] && DistinctNames(o.providers) && (forall name <- o.providers :: KnownProvider(name))
    && (forall name <- o.inputs ::
          && name in o.providers && ValidAuth(name, o.inputs[name].auth)
          && SafeOption(printable, o.inputs[name].executable) && SafeOption(printable, o.inputs[name].entrypoint)
          && SafeOption(printable, o.inputs[name].configHome))
    && DistinctMappings(o.models)
    && (forall m <- o.models :: m.provider in o.providers && SafeModel(printable, NewModel(m)))
    && DistinctNames(o.replaceProviders) && (forall name <- o.replaceProviders :: name in o.providers)
    && DistinctNames(o.replaceModels) && (forall id <- o.replaceModels :: id in MappingIds(o.models))
  }

  // ---- the decisions ----

  function Without(names: seq<string>, name: string): seq<string> {
    if names == [] then []
    else (if names[0] == name then [] else [names[0]]) + Without(names[1..], name)
  }

  function WithoutModel(models: seq<Mapping>, id: string): seq<Mapping> {
    if models == [] then []
    else (if models[0].id == id then [] else [models[0]]) + WithoutModel(models[1..], id)
  }

  function Authorize(o: Flags, d: Decision): Flags {
    match d.target
    case DiffGatewayAuth => o
    case DiffProvider => if d.name in o.replaceProviders then o else o.(replaceProviders := o.replaceProviders + [d.name])
    case DiffModel => if d.name in o.replaceModels then o else o.(replaceModels := o.replaceModels + [d.name])
  }

  function Keep(o: Flags, d: Decision): Flags {
    match d.target
    case DiffGatewayAuth => o
    case DiffProvider =>
      o.(inputs := o.inputs[d.name := NO_INPUT], replaceProviders := Without(o.replaceProviders, d.name))
    case DiffModel =>
      o.(models := WithoutModel(o.models, d.name), replaceModels := Without(o.replaceModels, d.name))
  }

  function Decide(o: Flags, d: Decision): Flags {
    if d.choice.Replace? then Authorize(o, d) else Keep(o, d)
  }

  function DecideAll(o: Flags, decisions: seq<Decision>): Flags {
    if decisions == [] then o
    else Decide(DecideAll(o, decisions[..|decisions| - 1]), decisions[|decisions| - 1])
  }

  predicate DistinctDecisions(decisions: seq<Decision>) {
    forall i, j :: 0 <= i < j < |decisions| ==>
      decisions[i].target != decisions[j].target || decisions[i].name != decisions[j].name
  }

  /** One decision for each collision, and only provider and model collisions. */
  predicate Complete(collisions: seq<Collision>, decisions: seq<Decision>) {
    && |decisions| == |collisions| && DistinctDecisions(decisions)
    && (forall c <- collisions :: !c.target.DiffGatewayAuth?)
    && (forall d <- decisions :: exists c <- collisions :: c.target == d.target && c.name == d.name)
  }

  predicate Kept(decisions: seq<Decision>, target: DiffTarget, name: string) {
    Decision(target, name, KeepExisting) in decisions
  }

  predicate Chosen(decisions: seq<Decision>, target: DiffTarget, name: string) {
    Decision(target, name, Replace) in decisions
  }

  lemma {:induction false} WithoutIs(names: seq<string>, name: string)
    ensures forall n :: n in Without(names, name) <==> n in names && n != name
    ensures DistinctNames(names) ==> DistinctNames(Without(names, name))
  {
    if names != [] {
      WithoutIs(names[1..], name);
      assert forall n :: n in names <==> n == names[0] || n in names[1..];
      if DistinctNames(names) {
        assert names[0] !in names[1..];
        assert DistinctNames(names[1..]);
      }
    }
  }

  lemma {:induction false} WithoutModelIs(models: seq<Mapping>, id: string)
    ensures forall m :: m in WithoutModel(models, id) <==> m in models && m.id != id
    ensures DistinctMappings(models) ==> DistinctMappings(WithoutModel(models, id))
  {
    if models != [] {
      WithoutModelIs(models[1..], id);
      assert forall m :: m in models <==> m == models[0] || m in models[1..];
      if DistinctMappings(models) {
        assert DistinctMappings(models[1..]);
        forall m <- models[1..]
          ensures m.id != models[0].id
        {
          var k :| 0 <= k < |models| - 1 && models[1..][k] == m;
          assert models[k + 1] == m;
        }
      }
    }
  }

  /** What the decisions come to, whatever their order. */
  ghost predicate Decided(o: Flags, after: Flags, decisions: seq<Decision>) {
    && after.providers == o.providers && after.gateway == o.gateway
    && DecidedInputs(o, after, decisions) && DecidedModels(o, after, decisions)
    && DecidedNames(o.replaceProviders, after.replaceProviders, decisions, DiffProvider)
    && DecidedNames(o.replaceModels, after.replaceModels, decisions, DiffModel)
  }

  ghost predicate DecidedInputs(o: Flags, after: Flags, decisions: seq<Decision>) {
    && (forall name :: InputAt(after, name) == if Kept(decisions, DiffProvider, name) then NO_INPUT else InputAt(o, name))
    && (forall name <- after.inputs :: name in o.inputs || Kept(decisions, DiffProvider, name))
  }

  ghost predicate DecidedModels(o: Flags, after: Flags, decisions: seq<Decision>) {
    && (forall m :: m in after.models <==> m in o.models && !Kept(decisions, DiffModel, m.id))
    && (DistinctMappings(o.models) ==> DistinctMappings(after.models))
  }

  ghost predicate DecidedNames(names: seq<string>, after: seq<string>, decisions: seq<Decision>, target: DiffTarget) {
    && (forall n :: n in after <==> Chosen(decisions, target, n) || (n in names && !Kept(decisions, target, n)))
    && (DistinctNames(names) ==> DistinctNames(after))
  }

  lemma {:induction false} DecideAllDecides(o: Flags, decisions: seq<Decision>)
    requires DistinctDecisions(decisions)
    ensures Decided(o, DecideAll(o, decisions), decisions)
  {
    if decisions != [] {
      var rest, last := decisions[..|decisions| - 1], decisions[|decisions| - 1];
      DecideAllDecides(o, rest);
      assert decisions == rest + [last];
      forall choice
        ensures Decision(last.target, last.name, choice) !in rest
      {
      }
      InputsStep(o, DecideAll(o, rest), rest, last);
      ModelsStep(o, DecideAll(o, rest), rest, last);
      NamesStep(o.replaceProviders, DecideAll(o, rest).replaceProviders, rest, last, DiffProvider);
      NamesStep(o.replaceModels, DecideAll(o, rest).replaceModels, rest, last, DiffModel);
    }
  }

  predicate Undecided(rest: seq<Decision>, last: Decision) {
    Decision(last.target, last.name, Replace) !in rest && Decision(last.target, last.name, KeepExisting) !in rest
  }

  lemma OneMoreDecided(rest: seq<Decision>, last: Decision, target: DiffTarget, name: string)
    ensures Kept(rest + [last], target, name) <==> Kept(rest, target, name) || last == Decision(target, name, KeepExisting)
    ensures Chosen(rest + [last], target, name) <==> Chosen(rest, target, name) || last == Decision(target, name, Replace)
  {
  }

  lemma InputsStep(o: Flags, mid: Flags, rest: seq<Decision>, last: Decision)
    requires DecidedInputs(o, mid, rest)
    ensures DecidedInputs(o, Decide(mid, last), rest + [last])
  {
    hide Kept;
    forall name: string
      ensures Kept(rest + [last], DiffProvider, name) <==> Kept(rest, DiffProvider, name) || last == Decision(DiffProvider, name, KeepExisting)
    {
      OneMoreDecided(rest, last, DiffProvider, name);
    }
  }

  lemma ModelsStep(o: Flags, mid: Flags, rest: seq<Decision>, last: Decision)
    requires DecidedModels(o, mid, rest)
    ensures DecidedModels(o, Decide(mid, last), rest + [last])
  {
    hide Kept, DistinctMappings;
    WithoutModelIs(mid.models, last.name);
    forall name: string
      ensures Kept(rest + [last], DiffModel, name) <==> Kept(rest, DiffModel, name) || last == Decision(DiffModel, name, KeepExisting)
    {
      OneMoreDecided(rest, last, DiffModel, name);
    }
  }

  /** What one decision does to the approvals of its target. */
  function NamesAfter(names: seq<string>, d: Decision, target: DiffTarget): seq<string> {
    if d.target != target then names
    else if d.choice.KeepExisting? then Without(names, d.name)
    else if d.name in names then names
    else names + [d.name]
  }

  lemma NamesStep(names: seq<string>, mid: seq<string>, rest: seq<Decision>, last: Decision, target: DiffTarget)
    requires DecidedNames(names, mid, rest, target) && Undecided(rest, last)
    ensures DecidedNames(names, NamesAfter(mid, last, target), rest + [last], target)
  {
    WithoutIs(mid, last.name);
    var after := NamesAfter(mid, last, target);
    forall n: string
      ensures n in after <==> Chosen(rest + [last], target, n) || (n in names && !Kept(rest + [last], target, n))
    {
      OneMoreDecided(rest, last, target, n);
    }
  }

  function DecisionKeys(decisions: seq<Decision>): set<(DiffTarget, string)> {
    set d <- decisions :: (d.target, d.name)
  }

  function CollisionKeys(collisions: seq<Collision>): set<(DiffTarget, string)> {
    set c <- collisions :: (c.target, c.name)
  }

  lemma {:induction false} DecisionsCounted(decisions: seq<Decision>)
    requires DistinctDecisions(decisions)
    ensures |DecisionKeys(decisions)| == |decisions|
  {
    if decisions != [] {
      var rest, last := decisions[..|decisions| - 1], decisions[|decisions| - 1];
      DecisionsCounted(rest);
      assert decisions == rest + [last];
      assert DecisionKeys(decisions) == DecisionKeys(rest) + {(last.target, last.name)};
      assert (last.target, last.name) !in DecisionKeys(rest);
    }
  }

  lemma {:induction false} CollisionsCounted(collisions: seq<Collision>)
    ensures |CollisionKeys(collisions)| <= |collisions|
  {
    if collisions != [] {
      var rest, last := collisions[..|collisions| - 1], collisions[|collisions| - 1];
      CollisionsCounted(rest);
      assert collisions == rest + [last];
      assert CollisionKeys(collisions) == CollisionKeys(rest) + {(last.target, last.name)};
    }
  }

  /** A collision listed twice leaves fewer keys than decisions. */
  lemma RepeatedCollision(collisions: seq<Collision>, decisions: seq<Decision>, i: nat, j: nat)
    requires i < j < |collisions| && collisions[i].target == collisions[j].target && collisions[i].name == collisions[j].name
    ensures !Complete(collisions, decisions)
  {
    if Complete(collisions, decisions) {
      var rest := collisions[..j] + collisions[j + 1..];
      DecisionsCounted(decisions);
      CollisionsCounted(rest);
      assert rest[i] == collisions[i];
      assert forall c <- collisions :: c in rest || c == collisions[j];
      assert CollisionKeys(collisions) <= CollisionKeys(rest);
      assert DecisionKeys(decisions) <= CollisionKeys(rest);
      SubsetIsNoLarger(DecisionKeys(decisions), CollisionKeys(rest));
    }
  }

  method PendingCollisions(collisions: seq<Collision>, ghost decisions: seq<Decision>)
    returns (pending: Option<set<(DiffTarget, string)>>)
    ensures Complete(collisions, decisions) ==> pending.Some?
    ensures pending.Some? ==> pending.value == CollisionKeys(collisions) && forall c <- collisions :: !c.target.DiffGatewayAuth?
  {
    var keys: set<(DiffTarget, string)> := {};
    var k := 0;
    while k < |collisions|
      invariant 0 <= k <= |collisions| && keys == CollisionKeys(collisions[..k])
      invariant forall c <- collisions[..k] :: !c.target.DiffGatewayAuth?
    {
      var key := (collisions[k].target, collisions[k].name);
      assert collisions[k] in collisions;
      if !collisions[k].target.DiffProvider? && !collisions[k].target.DiffModel? {
        return None;
      }
      if key in keys {
        ghost var c :| c in collisions[..k] && (c.target, c.name) == key;
        ghost var i :| 0 <= i < k && collisions[i] == c;
        RepeatedCollision(collisions, decisions, i, k);
        return None;
      }
      assert collisions[..k + 1] == collisions[..k] + [collisions[k]];
      keys := keys + {key};
      k := k + 1;
    }
    assert collisions[..k] == collisions;
    pending := Some(keys);
  }

  /** One decision for every collision, or nothing is changed; the options then change decision by decision. */
  method ApplyCollisionDecisions(o: Flags, collisions: seq<Collision>, decisions: seq<Decision>) returns (after: Option<Flags>)
    ensures after.Some? <==> Complete(collisions, decisions)
    ensures after.Some? ==> after.value == DecideAll(o, decisions)
  {
    if |decisions| != |collisions| {
      return None;
    }
    var pending := PendingCollisions(collisions, decisions);
    if pending.None? {
      return None;
    }
    var seen: set<(DiffTarget, string)> := {};
    var k := 0;
    while k < |decisions|
      invariant 0 <= k <= |decisions| && seen == DecisionKeys(decisions[..k])
      invariant seen <= pending.value && DistinctDecisions(decisions[..k])
    {
      var key := (decisions[k].target, decisions[k].name);
      assert decisions[k] in decisions;
      if key !in pending.value || key in seen {
        return None;
      }
      assert decisions[..k + 1] == decisions[..k] + [decisions[k]];
      seen := seen + {key};
      k := k + 1;
    }
    assert decisions[..k] == decisions;
    AllPending(collisions, decisions);
    var options := o;
    k := 0;
    while k < |decisions|
      invariant 0 <= k <= |decisions| && options == DecideAll(o, decisions[..k])
    {
      assert decisions[..k + 1][..k] == decisions[..k];
      if decisions[k].choice.Replace? {
        options := Authorize(options, decisions[k]);
      } else {
        options := Keep(options, decisions[k]);
      }
      k := k + 1;
    }
    assert decisions[..k] == decisions;
    return Some(options);
  }

  lemma AllPending(collisions: seq<Collision>, decisions: seq<Decision>)
    requires |decisions| == |collisions| && DistinctDecisions(decisions)
    requires DecisionKeys(decisions) <= CollisionKeys(collisions) && forall c <- collisions :: !c.target.DiffGatewayAuth?
    ensures Complete(collisions, decisions)
  {
    forall d <- decisions
      ensures exists c <- collisions :: c.target == d.target && c.name == d.name
    {
      assert (d.target, d.name) in CollisionKeys(collisions);
    }
  }

  /** As many decisions as collisions, all different and all about collisions, decide every collision. */
  lemma EveryCollisionDecided(collisions: seq<Collision>, decisions: seq<Decision>, c: Collision)
    requires Complete(collisions, decisions) && c in collisions
    ensures Kept(decisions, c.target, c.name) || Chosen(decisions, c.target, c.name)
  {
    DecisionsCounted(decisions);
    CollisionsCounted(collisions);
    assert DecisionKeys(decisions) <= CollisionKeys(collisions);
    SubsetOfSameSize(DecisionKeys(decisions), CollisionKeys(collisions));
    assert (c.target, c.name) in CollisionKeys(collisions);
    var d :| d in decisions && (d.target, d.name) == (c.target, c.name);
    assert d == Decision(c.target, c.name, d.choice) && (d.choice.Replace? || d.choice.KeepExisting?);
  }

  lemma KeptOrChosen(collisions: seq<Collision>, decisions: seq<Decision>, c: Collision)
    requires Complete(collisions, decisions)
    ensures !(Kept(decisions, c.target, c.name) && Chosen(decisions, c.target, c.name))
  {
  }

  /** The names collisions may have: selected providers and mapped aliases. */
  predicate FromOptions(o: Flags, collisions: seq<Collision>) {
    forall c <- collisions ::
      (c.target.DiffProvider? ==> c.name in o.providers) && (c.target.DiffModel? ==> c.name in MappingIds(o.models))
  }

  /** Any complete set of decisions leaves the options valid. */
  lemma DecisionsStayValid(printable: char -> bool, o: Flags, collisions: seq<Collision>, decisions: seq<Decision>)
    requires ValidFlags(printable, o) && Complete(collisions, decisions) && FromOptions(o, collisions)
    ensures ValidFlags(printable, DecideAll(o, decisions))
  {
    DecideAllDecides(o, decisions);
    var after := DecideAll(o, decisions);
    hide DistinctMappings, DistinctNames;
    forall name <- after.inputs
      ensures name in o.providers && ValidAuth(name, after.inputs[name].auth)
      ensures SafeOption(printable, after.inputs[name].executable) && SafeOption(printable, after.inputs[name].entrypoint)
      ensures SafeOption(printable, after.inputs[name].configHome)
    {
      assert after.inputs[name] == InputAt(after, name);
      assert InputAt(o, name) == NO_INPUT || name in o.inputs;
    }
    ApprovalsStayValid(o, collisions, decisions);
  }

  lemma ApprovalsStayValid(o: Flags, collisions: seq<Collision>, decisions: seq<Decision>)
    requires Complete(collisions, decisions) && FromOptions(o, collisions)
    requires (forall name <- o.replaceProviders :: name in o.providers) && (forall id <- o.replaceModels :: id in MappingIds(o.models))
    ensures var after := DecideAll(o, decisions);
            && (forall name <- after.replaceProviders :: name in o.providers)
            && (forall id <- after.replaceModels :: id in MappingIds(after.models))
  {
    DecideAllDecides(o, decisions);
    var after := DecideAll(o, decisions);
    forall id <- after.replaceModels
      ensures id in MappingIds(after.models)
    {
      assert id in MappingIds(o.models);
      var m :| m in o.models && m.id == id;
      if Kept(decisions, DiffModel, id) {
        KeptOrChosen(collisions, decisions, Collision(DiffModel, id, []));
      }
      assert m in after.models;
    }
  }

  // ---- resolution ----

  /** What the platform says of commands, and the defaults of a new installation. */
  datatype Platform = Platform(windows: bool, isNode: string -> bool, isScript: string -> bool, runtimeRoot: string, keyPath: string)

  function ResolveCommand(platform: Platform, input: Input, current: Option<Provider>): Option<(string, seq<string>)> {
    match input.executable
    case None =>
      if input.entrypoint.Some? || current.None? then None else Some((current.value.executable, current.value.prefixArgs))
    case Some(executable) =>
      if !platform.windows then (if input.entrypoint.Some? then None else Some((executable, [])))
      else if platform.isNode(executable) != input.entrypoint.Some? then None
      else if input.entrypoint.None? then Some((executable, []))
      else if !platform.isScript(input.entrypoint.value) then None
      else Some((executable, [input.entrypoint.value]))
  }

  function ResolveConfigHome(input: Input, current: Option<Provider>): Option<string> {
    if input.configHome.Some? then input.configHome
    else if current.None? then None else Some(current.value.configHome)
  }

  function CredentialEnvironment(name: string, auth: AuthId): Option<seq<string>> {
    if name == "codex" then (if auth.ConfigHome? then Some([]) else None)
    else if name == "claude" then
      (if auth.ConfigHome? then Some([]) else if auth.AnthropicApiKey? then Some(["ANTHROPIC_API_KEY"]) else None)
    else if name == "gemini" then
      match auth
      case GeminiApiKey => Some(["GEMINI_API_KEY"])
      case GoogleApiKey => Some(["GOOGLE_API_KEY"])
      case VertexServiceAccount => Some(["GOOGLE_APPLICATION_CREDENTIALS", "GOOGLE_CLOUD_PROJECT", "GOOGLE_CLOUD_LOCATION"])
      case _ => None
    else None
  }

  function ResolveCredentials(name: string, input: Input, current: Option<Provider>): Option<seq<string>> {
    if name == "codex" then Some([])
    else if input.auth.Some? then CredentialEnvironment(name, input.auth.value)
    else if current.None? then None else Some(current.value.credentialEnv)
  }

  function Current(existing: Option<Config>, name: string): Option<Provider> {
    if existing.Some? && name in existing.value.providers then Some(existing.value.providers[name]) else None
  }

  function ResolveProvider(platform: Platform, o: Flags, existing: Option<Config>, name: string): Option<Patch> {
    var input, current := InputAt(o, name), Current(existing, name);
    var command, home, credentials :=
      ResolveCommand(platform, input, current), ResolveConfigHome(input, current), ResolveCredentials(name, input, current);
    if command.None? || home.None? || credentials.None? then None
    else Some(Patch(name, command.value.0, command.value.1, home.value, credentials.value))
  }

  function ResolveGateway(input: GatewayInput, existing: Option<Config>, keyPath: string): GatewayPatch {
    match input.auth
    case None =>
      if existing.Some? then GatewayPatch(false, "", "", false) else GatewayPatch(true, "", keyPath, false)
    case Some(FileAuth) =>
      var path := if input.keyFile.Some? then input.keyFile.value
                  else if existing.Some? && existing.value.server.apiKeyFile != "" then existing.value.server.apiKeyFile
                  else keyPath;
      GatewayPatch(true, "", path, input.keyFile.Some?)
    case Some(EnvironmentAuth) => GatewayPatch(true, if input.keyEnv.Some? then input.keyEnv.value else "", "", false)
    case Some(NoAuth) => GatewayPatch(true, "", "", false)
  }

  // ---- what a resolution gives, said of the flags and the existing configuration ----

  ghost predicate Configured(existing: Option<Config>, name: string) {
    existing != None && name in existing.value.providers.Keys
  }

  /** What the flags say of the provider: nothing, if they have no entry for it. */
  ghost predicate Given(o: Flags, name: string, input: Input) {
    if name in o.inputs.Keys then input == o.inputs[name] else input == Input(None, None, None, None)
  }

  /** A given executable stands, with its entrypoint as the one argument where the platform has them; else the existing command does. */
  ghost predicate CommandStands(platform: Platform, input: Input, existing: Option<Config>, name: string,
                                executable: string, prefixArgs: seq<string>)
  {
    match input.executable
    case Some(given) =>
      && executable == given
      && (match input.entrypoint
          case Some(script) => platform.windows && platform.isNode(given) && platform.isScript(script) && prefixArgs == [script]
          case None => prefixArgs == [] && !(platform.windows && platform.isNode(given)))
    case None =>
      && input.entrypoint == None && Configured(existing, name)
      && executable == existing.value.providers[name].executable && prefixArgs == existing.value.providers[name].prefixArgs
  }

  ghost predicate HomeStands(input: Input, existing: Option<Config>, name: string, home: string) {
    || input.configHome == Some(home)
    || (input.configHome == None && Configured(existing, name) && home == existing.value.providers[name].configHome)
  }

  /** The names of the variables that hold the credentials of an authentication. */
  ghost predicate StandsFor(name: string, auth: AuthId, variables: seq<string>) {
    || (name == "claude" && auth == ConfigHome && variables == [])
    || (name == "claude" && auth == AnthropicApiKey && variables == ["ANTHROPIC_API_KEY"])
    || (name == "gemini" && auth == GeminiApiKey && variables == ["GEMINI_API_KEY"])
    || (name == "gemini" && auth == GoogleApiKey && variables == ["GOOGLE_API_KEY"])
    || (name == "gemini" && auth == VertexServiceAccount
        && variables == ["GOOGLE_APPLICATION_CREDENTIALS", "GOOGLE_CLOUD_PROJECT", "GOOGLE_CLOUD_LOCATION"])
  }

  ghost predicate CredentialsStand(input: Input, existing: Option<Config>, name: string, variables: seq<string>) {
    if name == "codex" then variables == []
    else match input.auth
      case Some(auth) => StandsFor(name, auth, variables)
      case None => Configured(existing, name) && variables == existing.value.providers[name].credentialEnv
  }

  ghost predicate ProviderStands(platform: Platform, o: Flags, existing: Option<Config>, name: string, p: Patch) {
    && p.name == name
    && forall input | Given(o, name, input) ::
         && CommandStands(platform, input, existing, name, p.executable, p.prefixArgs)
         && HomeStands(input, existing, name, p.configHome) && CredentialsStand(input, existing, name, p.credentialEnv)
  }

  /** Which providers can be resolved. */
  ghost predicate Resolvable(platform: Platform, o: Flags, existing: Option<Config>, name: string) {
    forall input | Given(o, name, input) ::
      && (match input.executable
          case None => input.entrypoint == None && Configured(existing, name)
          case Some(executable) =>
            if platform.windows && platform.isNode(executable)
            then input.entrypoint != None && platform.isScript(input.entrypoint.value)
            else input.entrypoint == None)
      && (input.configHome == None ==> Configured(existing, name))
      && (name != "codex" ==>
            match input.auth
            case None => Configured(existing, name)
            case Some(auth) =>
              || (name == "claude" && auth in {ConfigHome, AnthropicApiKey})
              || (name == "gemini" && auth in {GeminiApiKey, GoogleApiKey, VertexServiceAccount}))
  }

  /** The gateway authentication that is written, field by field. */
  ghost predicate GatewayStands(input: GatewayInput, existing: Option<Config>, keyPath: string, g: GatewayPatch) {
    && (g.isSet <==> input.auth != None || existing == None)
    && g.apiKeyEnv == (if input.auth == Some(EnvironmentAuth) && input.keyEnv != None then input.keyEnv.value else "")
    && (g.keyExplicit <==> input.auth == Some(FileAuth) && input.keyFile != None)
    && (input.auth == Some(FileAuth) && input.keyFile != None ==> g.apiKeyFile == input.keyFile.value)
    && (input.auth == Some(FileAuth) && input.keyFile == None && existing != None && existing.value.server.apiKeyFile != ""
        ==> g.apiKeyFile == existing.value.server.apiKeyFile)
    && (input.auth == Some(FileAuth) && input.keyFile == None && (existing == None || existing.value.server.apiKeyFile == "")
        ==> g.apiKeyFile == keyPath)
    && (input.auth == None && existing == None ==> g.apiKeyFile == keyPath)
    && (input.auth in {Some(EnvironmentAuth), Some(NoAuth)} || (input.auth == None && existing != None) ==> g.apiKeyFile == "")
  }

  /** The provider has a mapped alias, or one of its existing aliases is not mapped to another. */
  ghost predicate OwnsAlias(o: Flags, existing: Option<Config>, name: string) {
    || (exists m <- o.models :: m.provider == name)
    || (existing != None && exists m <- existing.value.models :: m.provider == name && forall n <- o.models :: n.id != m.id)
  }

  ghost predicate Resolution(platform: Platform, o: Flags, existing: Option<Config>, d: Desired) {
    && d.newRuntimeRoot == platform.runtimeRoot && d.selected == o.providers && d.models == o.models
    && (forall name :: name in d.replaceProviders <==> name in o.replaceProviders)
    && (forall id :: id in d.replaceModels <==> id in o.replaceModels)
    && GatewayStands(o.gateway, existing, platform.keyPath, d.gateway)
    && |d.providers| == |o.providers|
    && (forall k | 0 <= k < |o.providers| :: ProviderStands(platform, o, existing, o.providers[k], d.providers[k]))
  }

  ghost predicate AllResolvable(platform: Platform, o: Flags, existing: Option<Config>) {
    forall name <- o.providers :: Resolvable(platform, o, existing, name) && OwnsAlias(o, existing, name)
  }

  /** A provider resolves exactly when it can, and then to what stands. */
  lemma ProviderResolves(platform: Platform, o: Flags, existing: Option<Config>, name: string)
    ensures ResolveProvider(platform, o, existing, name).Some? <==> Resolvable(platform, o, existing, name)
    ensures forall p :: ProviderStands(platform, o, existing, name, p) && Resolvable(platform, o, existing, name)
                        <==> ResolveProvider(platform, o, existing, name) == Some(p)
  {
    var input := InputAt(o, name);
    assert Given(o, name, input);
    forall p
      ensures ProviderStands(platform, o, existing, name, p) && Resolvable(platform, o, existing, name)
              <==> ResolveProvider(platform, o, existing, name) == Some(p)
    {
      PatchStands(platform, o, existing, name, input, p);
    }
  }

  lemma PatchStands(platform: Platform, o: Flags, existing: Option<Config>, name: string, input: Input, p: Patch)
    requires Given(o, name, input)
    ensures ProviderStands(platform, o, existing, name, p) && Resolvable(platform, o, existing, name)
            <==> ResolveProvider(platform, o, existing, name) == Some(p)
  {
    CommandResolves(platform, input, existing, name, p.executable, p.prefixArgs);
    CredentialsResolve(input, existing, name, p.credentialEnv);
    assert forall other | Given(o, name, other) :: other == input;
    hide ResolveCommand, ResolveCredentials, CommandStands, CredentialsStand;
  }

  lemma CommandResolves(platform: Platform, input: Input, existing: Option<Config>, name: string,
                        executable: string, prefixArgs: seq<string>)
    ensures ResolveCommand(platform, input, Current(existing, name)) == Some((executable, prefixArgs))
            <==> CommandStands(platform, input, existing, name, executable, prefixArgs)
  {
  }

  lemma CredentialsResolve(input: Input, existing: Option<Config>, name: string, variables: seq<string>)
    ensures ResolveCredentials(name, input, Current(existing, name)) == Some(variables)
            <==> CredentialsStand(input, existing, name, variables)
  {
  }

  lemma GatewayResolves(input: GatewayInput, existing: Option<Config>, keyPath: string, g: GatewayPatch)
    ensures ResolveGateway(input, existing, keyPath) == g <==> GatewayStands(input, existing, keyPath, g)
  {
  }

  /** Which providers own an alias after the mappings, said of the models and mappings before. */
  lemma AliasesOwned(models: seq<Model>, mappings: seq<Mapping>, name: string)
    requires DistinctModels(models) && DistinctMappings(mappings)
    ensures (exists m <- AfterModels(models, mappings) :: m.provider == name) <==>
            || (exists m <- mappings :: m.provider == name)
            || (exists m <- models :: m.provider == name && forall n <- mappings :: n.id != m.id)
  {
    var after := AfterModels(models, mappings);
    if m :| m in after && m.provider == name {
      AliasFrom(models, mappings, m);
    }
    if m :| m in mappings && m.provider == name {
      var k :| 0 <= k < |mappings| && mappings[k] == m;
      MappingHolds(models, mappings, k);
      var found := FindModel(after, m.id);
      assert found.value in after && found.value.provider == name;
    }
    if m :| m in models && m.provider == name && forall n <- mappings :: n.id != m.id {
      var i :| 0 <= i < |models| && models[i] == m;
      UnmappedStays(m, mappings);
      assert after[i] == m;
    }
  }

  lemma AliasFrom(models: seq<Model>, mappings: seq<Mapping>, m: Model)
    requires m in AfterModels(models, mappings)
    ensures (exists n <- mappings :: n.provider == m.provider) || (m in models && forall n <- mappings :: n.id != m.id)
  {
    var i :| 0 <= i < |AfterModels(models, mappings)| && AfterModels(models, mappings)[i] == m;
    if i < |models| {
      MappedFrom(models[i], mappings);
    } else {
      AddedFrom(models, mappings);
      assert m in Additions(models, mappings);
    }
  }

  lemma {:induction false} MappedFrom(m: Model, mappings: seq<Mapping>)
    ensures var after := AfterMapping(m, mappings);
            (exists n <- mappings :: n.provider == after.provider) || (after == m && forall n <- mappings :: n.id != m.id)
  {
    if mappings != [] {
      var rest, last := mappings[..|mappings| - 1], mappings[|mappings| - 1];
      assert mappings == rest + [last];
      MappedFrom(m, rest);
    }
  }

  lemma {:induction false} AddedFrom(models: seq<Model>, mappings: seq<Mapping>)
    ensures forall m <- Additions(models, mappings) :: exists n <- mappings :: n.provider == m.provider
  {
    if mappings != [] {
      var rest, last := mappings[..|mappings| - 1], mappings[|mappings| - 1];
      assert mappings == rest + [last];
      AddedFrom(models, rest);
    }
  }

  function Names(names: seq<string>): set<string> {
    set n <- names
  }

  /** The desired state a successful resolution gives. */
  ghost predicate Resolves(platform: Platform, o: Flags, existing: Option<Config>, d: Desired) {
    && d.newRuntimeRoot == platform.runtimeRoot && d.gateway == ResolveGateway(o.gateway, existing, platform.keyPath)
    && d.selected == o.providers && d.models == o.models
    && d.replaceProviders == Names(o.replaceProviders) && d.replaceModels == Names(o.replaceModels)
    && |d.providers| == |o.providers|
    && (forall k | 0 <= k < |o.providers| :: Some(d.providers[k]) == ResolveProvider(platform, o, existing, o.providers[k]))
    && SelectedModelsPresent(AfterModels(ExistingModels(existing), o.models), o.providers)
  }

  /** The desired state of a resolution is the one that stands, and there is one exactly when all can be resolved. */
  lemma ResolvesExactly(platform: Platform, o: Flags, existing: Option<Config>, d: Desired)
    requires DistinctModels(ExistingModels(existing)) && DistinctMappings(o.models)
    ensures Resolves(platform, o, existing, d) <==> Resolution(platform, o, existing, d) && AllResolvable(platform, o, existing)
  {
    GatewayResolves(o.gateway, existing, platform.keyPath, d.gateway);
    AllAliasesOwned(o, existing);
    if |d.providers| == |o.providers| {
      AllStand(platform, o, existing, d.providers);
    }
    hide ResolveProvider, ProviderStands, Resolvable, GatewayStands, ResolveGateway, SelectedModelsPresent, OwnsAlias, DistinctModels, DistinctMappings;
  }

  lemma AllAliasesOwned(o: Flags, existing: Option<Config>)
    requires DistinctModels(ExistingModels(existing)) && DistinctMappings(o.models)
    ensures SelectedModelsPresent(AfterModels(ExistingModels(existing), o.models), o.providers)
            <==> forall name <- o.providers :: OwnsAlias(o, existing, name)
  {
    hide AfterModels;
    forall name <- o.providers
      ensures (exists m <- AfterModels(ExistingModels(existing), o.models) :: m.provider == name) <==> OwnsAlias(o, existing, name)
    {
      AliasesOwned(ExistingModels(existing), o.models, name);
    }
    hide OwnsAlias, DistinctModels, DistinctMappings;
  }

  lemma AllStand(platform: Platform, o: Flags, existing: Option<Config>, patches: seq<Patch>)
    requires |patches| == |o.providers|
    ensures (forall k | 0 <= k < |o.providers| :: Some(patches[k]) == ResolveProvider(platform, o, existing, o.providers[k]))
            <==> && (forall k | 0 <= k < |o.providers| :: ProviderStands(platform, o, existing, o.providers[k], patches[k]))
                 && (forall name <- o.providers :: Resolvable(platform, o, existing, name))
  {
    hide ResolveProvider, ProviderStands, Resolvable;
    forall k | 0 <= k < |o.providers|
      ensures Some(patches[k]) == ResolveProvider(platform, o, existing, o.providers[k])
              <==> Resolvable(platform, o, existing, o.providers[k]) && ProviderStands(platform, o, existing, o.providers[k], patches[k])
    {
      ProviderResolves(platform, o, existing, o.providers[k]);
    }
    assert forall k | 0 <= k < |o.providers| :: o.providers[k] in o.providers;
  }

  function ExistingModels(existing: Option<Config>): seq<Model> {
    if existing.Some? then existing.value.models else []
  }

  // the model check of the resolution

  ghost predicate OwnersOf(owners: map<string, string>, models: seq<Model>) {
    && (forall m <- models :: m.id in owners && owners[m.id] == m.provider)
    && (forall id <- owners :: exists m <- models :: m.id == id)
  }

  lemma OwnersStep(owners: map<string, string>, models: seq<Model>, done: seq<Mapping>, mapping: Mapping)
    requires DistinctModels(models) && DistinctMappings(done + [mapping]) && OwnersOf(owners, AfterModels(models, done))
    ensures OwnersOf(owners[mapping.id := mapping.provider], AfterModels(models, done + [mapping]))
  {
    var before, all := AfterModels(models, done), done + [mapping];
    assert all[..|done|] == done;
    NewAlias(all, |done|);
    assert DistinctMappings(done);
    AfterModelsDistinct(models, done);
    hide AfterModels, DistinctMappings, DistinctModels, MappingIds;
    if FindModel(models, mapping.id).None? {
      AddedStep(models, done, mapping);
      AfterModelsDistinct(models, all);
      OwnersAdded(owners, before, NewModel(mapping));
    } else {
      var m := FindModel(models, mapping.id).value;
      var i :| 0 <= i < |models| && models[i] == m;
      ExistingStep(models, done, mapping, i);
      OwnersUpdated(owners, before, i, Mapped(m, mapping));
    }
  }

  lemma OwnersAdded(owners: map<string, string>, models: seq<Model>, m: Model)
    requires OwnersOf(owners, models) && DistinctModels(models + [m])
    ensures OwnersOf(owners[m.id := m.provider], models + [m])
  {
    forall x <- models
      ensures x.id != m.id
    {
      var i :| 0 <= i < |models| && models[i] == x;
      assert (models + [m])[i] == x && (models + [m])[|models|] == m;
    }
    assert forall x <- models + [m] :: x in models || x == m;
    assert m in models + [m] && forall x <- models :: x in models + [m];
  }

  lemma OwnersUpdated(owners: map<string, string>, models: seq<Model>, i: nat, m: Model)
    requires DistinctModels(models) && OwnersOf(owners, models) && i < |models| && models[i].id == m.id
    ensures OwnersOf(owners[m.id := m.provider], models[i := m])
  {
    var after := models[i := m];
    assert after[i] == m;
    forall x <- after
      ensures x.id in owners[m.id := m.provider] && owners[m.id := m.provider][x.id] == x.provider
    {
      var k :| 0 <= k < |after| && after[k] == x;
      assert k != i ==> x == models[k];
    }
    forall id <- owners
      ensures exists x <- after :: x.id == id
    {
      var x :| x in models && x.id == id;
      var k :| 0 <= k < |models| && models[k] == x;
      assert after[k] in after && after[k].id == id;
    }
  }

  lemma PrefixDistinct(mappings: seq<Mapping>, k: nat)
    requires DistinctMappings(mappings) && k <= |mappings|
    ensures DistinctMappings(mappings[..k])
  {
  }

  method IndexOwners(models: seq<Model>) returns (owners: map<string, string>)
    requires DistinctModels(models)
    ensures OwnersOf(owners, models)
  {
    owners := map[];
    var k := 0;
    while k < |models|
      invariant 0 <= k <= |models| && OwnersOf(owners, models[..k])
    {
      assert models[..k + 1] == models[..k] + [models[k]];
      owners := owners[models[k].id := models[k].provider];
      k := k + 1;
    }
    assert models[..k] == models;
  }

  /** Each selected provider owns an alias once the requested mappings override the existing ones. */
  method SelectedProvidersHaveModels(selected: seq<string>, requested: seq<Mapping>, existing: seq<Model>) returns (ok: bool)
    requires DistinctModels(existing) && DistinctMappings(requested)
    ensures ok <==> SelectedModelsPresent(AfterModels(existing, requested), selected)
  {
    hide AfterModels, DistinctMappings, DistinctModels, OwnersOf;
    var owners := IndexOwners(existing);
    NothingMapped(existing);
    var k := 0;
    while k < |requested|
      invariant 0 <= k <= |requested| && OwnersOf(owners, AfterModels(existing, requested[..k]))
    {
      assert requested[..k + 1] == requested[..k] + [requested[k]];
      PrefixDistinct(requested, k + 1);
      OwnersStep(owners, existing, requested[..k], requested[k]);
      owners := owners[requested[k].id := requested[k].provider];
      k := k + 1;
    }
    assert requested[..k] == requested;
    ghost var after := AfterModels(existing, requested);
    k := 0;
    while k < |selected|
      invariant 0 <= k <= |selected|
      invariant forall j | 0 <= j < k :: exists m <- after :: m.provider == selected[j]
    {
      var found := exists id <- owners :: owners[id] == selected[k];
      OwnerFound(owners, after, selected[k]);
      if !found {
        assert selected[k] in selected;
        return false;
      }
      k := k + 1;
    }
    return true;
  }

  lemma OwnerFound(owners: map<string, string>, models: seq<Model>, name: string)
    requires OwnersOf(owners, models)
    ensures (exists id <- owners :: owners[id] == name) <==> (exists m <- models :: m.provider == name)
  {
  }

  method ResolveNonInteractive(platform: Platform, o: Flags, existing: Option<Config>) returns (d: Option<Desired>)
    requires DistinctModels(ExistingModels(existing)) && DistinctMappings(o.models)
    ensures d.Some? <==> AllResolvable(platform, o, existing)
    ensures d.Some? ==> Resolution(platform, o, existing, d.value) && Resolves(platform, o, existing, d.value)
  {
    hide ResolveProvider, Resolvable, ProviderStands, OwnsAlias, Resolution, ResolveGateway, AfterModels, DistinctModels, DistinctMappings;
    var patches: seq<Patch> := [];
    while |patches| < |o.providers|
      invariant |patches| <= |o.providers|
      invariant forall k | 0 <= k < |patches| :: Some(patches[k]) == ResolveProvider(platform, o, existing, o.providers[k])
    {
      var name := o.providers[|patches|];
      var patch := ResolveProvider(platform, o, existing, name);
      ProviderResolves(platform, o, existing, name);
      assert name in o.providers;
      if patch.None? {
        return None;
      }
      patches := patches + [patch.value];
    }
    var ok := SelectedProvidersHaveModels(o.providers, o.models, ExistingModels(existing));
    if !ok {
      UnownedAlias(o, existing);
      return None;
    }
    d := Some(Desired(platform.runtimeRoot, ResolveGateway(o.gateway, existing, platform.keyPath), o.providers, patches,
                      o.models, Names(o.replaceProviders), Names(o.replaceModels)));
    ResolvesExactly(platform, o, existing, d.value);
  }

  lemma UnownedAlias(o: Flags, existing: Option<Config>)
    requires DistinctModels(ExistingModels(existing)) && DistinctMappings(o.models)
    requires !SelectedModelsPresent(AfterModels(ExistingModels(existing), o.models), o.providers)
    ensures exists name <- o.providers :: !OwnsAlias(o, existing, name)
  {
    var name :| name in o.providers && forall m <- AfterModels(ExistingModels(existing), o.models) :: m.provider != name;
    AliasesOwned(ExistingModels(existing), o.models, name);
  }

  // ---- convergence ----

  ghost predicate CodexWithoutCredentials(b: Config) {
    "codex" in b.providers ==> b.providers["codex"].credentialEnv == []
  }

  /** A provider kept as it is resolves to its existing values. */
  lemma KeptResolvesToExisting(platform: Platform, o: Flags, b: Config, name: string)
    requires InputAt(o, name) == NO_INPUT && name in b.providers && CodexWithoutCredentials(b)
    ensures var patch := ResolveProvider(platform, o, Some(b), name);
            patch.Some? && patch.value.name == name && Updated(b.providers[name], patch.value) == b.providers[name]
            && ProviderEntry(b.providers, patch.value).kind.DiffUnchanged?
  {
  }

  lemma ResolvedName(platform: Platform, o: Flags, existing: Option<Config>, name: string)
    ensures ResolveProvider(platform, o, existing, name).Some? ==> ResolveProvider(platform, o, existing, name).value.name == name
  {
  }

  lemma ProviderCollisionIs(b: Config, patches: seq<Patch>, c: Collision)
    ensures c in Replaced(ProviderEntries(b.providers, patches)) <==>
            exists p <- patches :: ProviderEntry(b.providers, p).kind.DiffReplaced? && c == CollisionOf(ProviderEntry(b.providers, p))
  {
    hide ProviderEntry;
    var entries := ProviderEntries(b.providers, patches);
    ReplacedExactly(entries);
    if c in Replaced(entries) {
      var e :| e in entries && e.kind.DiffReplaced? && c == Collision(e.target, e.name, e.fields);
      var k :| 0 <= k < |entries| && entries[k] == e;
      assert patches[k] in patches;
    }
    forall p <- patches | ProviderEntry(b.providers, p).kind.DiffReplaced? && c == CollisionOf(ProviderEntry(b.providers, p))
      ensures c in Replaced(entries)
    {
      var k :| 0 <= k < |patches| && patches[k] == p;
      assert entries[k] in entries;
    }
  }

  lemma ModelCollisionIs(b: Config, mappings: seq<Mapping>, c: Collision)
    ensures c in Replaced(ModelEntries(b.models, mappings)) <==>
            exists m <- mappings :: ModelEntry(b.models, m).kind.DiffReplaced? && c == CollisionOf(ModelEntry(b.models, m))
  {
  }

  /** The provider collisions after the decisions are those chosen for replacement. */
  lemma ProviderCollisionsAfter(platform: Platform, o: Flags, o': Flags, b: Config, d: Desired, d': Desired,
                                decisions: seq<Decision>, c: Collision)
    requires CodexWithoutCredentials(b) && Resolves(platform, o, Some(b), d) && Resolves(platform, o', Some(b), d')
    requires Complete(MergedCollisions(b, d), decisions) && Decided(o, o', decisions)
    ensures c in Replaced(ProviderEntries(b.providers, d'.providers)) <==>
            c in Replaced(ProviderEntries(b.providers, d.providers)) && !Kept(decisions, DiffProvider, c.name)
  {
    hide ProviderEntry, Complete, Kept, ResolveProvider, SelectedModelsPresent, Replaced, CodexWithoutCredentials;
    forall k | 0 <= k < |d.providers|
      ensures KeptOrSame(b, d.providers[k], d'.providers[k], decisions)
    {
      SameOrKept(platform, o, o', b, d, d', decisions, k);
    }
    hide Resolves, KeptOrSame;
    CollisionsThinned(b, d.providers, d'.providers, decisions, c);
  }

  /** After the decisions a provider is as before, or it was kept and collides no more. */
  predicate KeptOrSame(b: Config, p: Patch, p': Patch, decisions: seq<Decision>) {
    && p.name == p'.name
    && if Kept(decisions, DiffProvider, p.name) then !ProviderEntry(b.providers, p').kind.DiffReplaced? else p' == p
  }

  lemma CollisionsThinned(b: Config, patches: seq<Patch>, patches': seq<Patch>, decisions: seq<Decision>, c: Collision)
    requires |patches| == |patches'|
    requires forall k | 0 <= k < |patches| :: KeptOrSame(b, patches[k], patches'[k], decisions)
    ensures c in Replaced(ProviderEntries(b.providers, patches')) <==>
            c in Replaced(ProviderEntries(b.providers, patches)) && !Kept(decisions, DiffProvider, c.name)
  {
    hide ProviderEntry, Kept, Replaced, ProviderEntries;
    ProviderCollisionIs(b, patches, c);
    ProviderCollisionIs(b, patches', c);
    EntryName(b, patches);
    EntryName(b, patches');
    if p :| p in patches && ProviderEntry(b.providers, p).kind.DiffReplaced? && c == CollisionOf(ProviderEntry(b.providers, p)) {
      var k :| 0 <= k < |patches| && patches[k] == p;
      assert KeptOrSame(b, patches[k], patches'[k], decisions);
      assert patches'[k] in patches';
    }
    if p :| p in patches' && ProviderEntry(b.providers, p).kind.DiffReplaced? && c == CollisionOf(ProviderEntry(b.providers, p)) {
      var k :| 0 <= k < |patches'| && patches'[k] == p;
      assert KeptOrSame(b, patches[k], patches'[k], decisions);
      assert patches[k] in patches;
    }
  }

  lemma EntryName(b: Config, patches: seq<Patch>)
    ensures forall p <- patches :: ProviderEntry(b.providers, p).name == p.name
  {
  }

  lemma SameOrKept(platform: Platform, o: Flags, o': Flags, b: Config, d: Desired, d': Desired, decisions: seq<Decision>, k: nat)
    requires CodexWithoutCredentials(b) && Resolves(platform, o, Some(b), d) && Resolves(platform, o', Some(b), d')
    requires Complete(MergedCollisions(b, d), decisions) && Decided(o, o', decisions) && k < |o.providers|
    ensures KeptOrSame(b, d.providers[k], d'.providers[k], decisions)
  {
    var name := o.providers[k];
    ResolvedName(platform, o, Some(b), name);
    ResolvedName(platform, o', Some(b), name);
    assert Some(d.providers[k]) == ResolveProvider(platform, o, Some(b), name);
    assert Some(d'.providers[k]) == ResolveProvider(platform, o', Some(b), name);
    if Kept(decisions, DiffProvider, name) {
      assert InputAt(o', name) == NO_INPUT;
      KeptIsExisting(b, d, decisions, name);
      KeptResolvesToExisting(platform, o', b, name);
    } else {
      assert InputAt(o', name) == InputAt(o, name);
    }
  }

  /** Only an existing provider can have a collision to keep. */
  lemma KeptIsExisting(b: Config, d: Desired, decisions: seq<Decision>, name: string)
    requires Complete(MergedCollisions(b, d), decisions) && Kept(decisions, DiffProvider, name)
    ensures name in b.providers
  {
    var collisions := MergedCollisions(b, d);
    var decision := Decision(DiffProvider, name, KeepExisting);
    var c :| c in collisions && c.target == decision.target && c.name == decision.name;
    ProviderCollisionIs(b, d.providers, c);
    ModelCollisionIs(b, d.models, c);
    ModelsAreModels(b, d.models);
  }

  lemma ModelsAreModels(b: Config, mappings: seq<Mapping>)
    ensures forall m <- mappings :: ModelEntry(b.models, m).target.DiffModel? && ModelEntry(b.models, m).name == m.id
  {
  }

  lemma ModelCollisionsAfter(o: Flags, o': Flags, b: Config, decisions: seq<Decision>, c: Collision)
    requires DecidedModels(o, o', decisions)
    ensures c in Replaced(ModelEntries(b.models, o'.models)) <==>
            c in Replaced(ModelEntries(b.models, o.models)) && !Kept(decisions, DiffModel, c.name)
  {
    hide ModelEntry, Kept, DistinctMappings;
    ModelCollisionIs(b, o.models, c);
    ModelCollisionIs(b, o'.models, c);
    ModelsAreModels(b, o.models);
    ModelsAreModels(b, o'.models);
  }

  /**
   Convergence: once every collision has been decided and the options resolve again, the
   new plan collides exactly where a replacement was chosen, and all of it is approved.
   */
  lemma CollisionsConverge(platform: Platform, o: Flags, b: Config, d: Desired, d': Desired, decisions: seq<Decision>)
    requires CodexWithoutCredentials(b) && Resolves(platform, o, Some(b), d)
    requires Complete(MergedCollisions(b, d), decisions)
    requires Resolves(platform, DecideAll(o, decisions), Some(b), d')
    ensures forall c :: c in MergedCollisions(b, d') <==> c in MergedCollisions(b, d) && Chosen(decisions, c.target, c.name)
    ensures Authorized(MergedCollisions(b, d'), d')
  {
    var o' := DecideAll(o, decisions);
    DecideAllDecides(o, decisions);
    hide ProviderEntries, ModelEntries, Replaced, Resolves, DecidedInputs, DecidedModels;
    forall c: Collision
      ensures c in MergedCollisions(b, d') <==> c in MergedCollisions(b, d) && Chosen(decisions, c.target, c.name)
    {
      OneCollisionAfter(platform, o, o', b, d, d', decisions, c);
    }
    forall c <- MergedCollisions(b, d')
      ensures match c.target
              case DiffProvider => c.name in d'.replaceProviders
              case DiffModel => c.name in d'.replaceModels
              case DiffGatewayAuth => false
    {
      ApprovedNames(platform, o', b, d');
    }
  }

  lemma ApprovedNames(platform: Platform, o: Flags, b: Config, d: Desired)
    requires Resolves(platform, o, Some(b), d)
    ensures d.replaceProviders == Names(o.replaceProviders) && d.replaceModels == Names(o.replaceModels)
  {
  }

  lemma OneCollisionAfter(platform: Platform, o: Flags, o': Flags, b: Config, d: Desired, d': Desired,
                          decisions: seq<Decision>, c: Collision)
    requires CodexWithoutCredentials(b) && Resolves(platform, o, Some(b), d) && Resolves(platform, o', Some(b), d')
    requires Complete(MergedCollisions(b, d), decisions) && Decided(o, o', decisions)
    ensures c in MergedCollisions(b, d') <==> c in MergedCollisions(b, d) && Chosen(decisions, c.target, c.name)
  {
    ProviderCollisionsAfter(platform, o, o', b, d, d', decisions, c);
    SameModels(platform, o, b, d);
    SameModels(platform, o', b, d');
    ModelCollisionsAfter(o, o', b, decisions, c);
    CollisionTarget(b, d, c);
    CollisionTarget(b, d', c);
    if c in MergedCollisions(b, d) {
      EveryCollisionDecided(MergedCollisions(b, d), decisions, c);
      KeptOrChosen(MergedCollisions(b, d), decisions, c);
    }
  }

  lemma SameModels(platform: Platform, o: Flags, b: Config, d: Desired)
    requires Resolves(platform, o, Some(b), d)
    ensures d.models == o.models
  {
  }

  lemma CollisionTarget(b: Config, d: Desired, c: Collision)
    ensures c in Replaced(ProviderEntries(b.providers, d.providers)) ==> c.target.DiffProvider?
    ensures c in Replaced(ModelEntries(b.models, d.models)) ==> c.target.DiffModel?
  {
    ProviderCollisionIs(b, d.providers, c);
    ModelCollisionIs(b, d.models, c);
    ModelsAreModels(b, d.models);
  }

  function CollisionOf(e: DiffEntry): Collision {
    Collision(e.target, e.name, e.fields)
  }

  /** The collisions of a plan concern only selected providers and mapped aliases. */
  lemma PlannedCollisionsFromOptions(platform: Platform, o: Flags, b: Config, d: Desired)
    requires Resolves(platform, o, Some(b), d)
    ensures FromOptions(o, MergedCollisions(b, d))
  {
    forall c <- MergedCollisions(b, d)
      ensures c.target.DiffProvider? ==> c.name in o.providers
      ensures c.target.DiffModel? ==> c.name in MappingIds(o.models)
    {
      CollisionTarget(b, d, c);
      ProviderCollisionIs(b, d.providers, c);
      ModelCollisionIs(b, d.models, c);
      ModelsAreModels(b, d.models);
      EntryName(b, d.providers);
      ResolvedNames(platform, o, b, d);
    }
  }

  lemma ResolvedNames(platform: Platform, o: Flags, b: Config, d: Desired)
    requires Resolves(platform, o, Some(b), d)
    ensures forall p <- d.providers :: p.name in o.providers
  {
  }

  /** Every plan for a resolved desired state passes the final check: the resolution has asked for the models. */
  lemma ResolvedPlanPasses(printable: char -> bool, platform: Platform, o: Flags, existing: Option<Config>, d: Desired, plan: Plan)
    requires PrintsAscii(printable) && ValidDesired(printable, d) && (existing.Some? ==> ValidConfig(printable, existing.value))
    requires Resolves(platform, o, existing, d) && Accepted(existing, d, plan)
    ensures ValidFinal(printable, plan, d)
  {
    hide ValidDesired, ValidConfig, ValidFinal, SelectedModelsPresent, AfterModels;
    match existing
    case None => FreshPlanAccepted(printable, d, plan);
    case Some(b) =>
      MergedPlanAccepted(printable, b, d, plan);
      if !plan.changed {
        UnchangedKeepsConfig(printable, b, d, plan);
      }
  }
}
