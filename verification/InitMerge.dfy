/** The whole plan: fresh or merged configuration, its diff, its collisions and its key work. */
module InitMerge {
  import opened InitPlan
  import opened ModelAlias
  import opened Options

  // ---- what the production decoder and the state check guarantee ----

  predicate KnownProvider(name: string) {
    name == "codex" || name == "claude" || name == "gemini"
  }

  /** `printable` is the platform's notion of a printable character. */
  ghost predicate PrintsAscii(printable: char -> bool) {
    forall c: char :: '!' <= c <= '~' ==> printable(c)
  }

  ghost predicate SafeText(printable: char -> bool, s: string) {
    s != "" && forall c <- s :: printable(c)
  }

  ghost predicate SafeOrEmpty(printable: char -> bool, s: string) {
    s == "" || SafeText(printable, s)
  }

  lemma AliasIsSafe(printable: char -> bool, id: string)
    requires PrintsAscii(printable) && ValidAlias(id)
    ensures SafeText(printable, id)
  {
  }

  ghost predicate SafeProvider(printable: char -> bool, p: Provider) {
    && SafeText(printable, p.executable) && SafeText(printable, p.configHome)
    && (forall s <- p.prefixArgs :: SafeText(printable, s)) && (forall s <- p.credentialEnv :: SafeText(printable, s))
    && PlainLists(p.prefixArgs, p.credentialEnv)
  }

  ghost predicate SafeServer(printable: char -> bool, s: Server) {
    && SafeOrEmpty(printable, s.apiKeyEnv) && SafeOrEmpty(printable, s.apiKeyFile)
    && (s.apiKeyEnv == "" || s.apiKeyFile == "")
  }

  ghost predicate SafeModel(printable: char -> bool, m: Model) {
    ValidAlias(m.id) && KnownProvider(m.provider) && SafeText(printable, m.providerModel)
  }

  /** A validated existing configuration whose managed values are printable. */
  ghost predicate ValidConfig(printable: char -> bool, c: Config) {
    && (forall name <- c.providers :: KnownProvider(name) && SafeProvider(printable, c.providers[name]))
    && SafeServer(printable, c.server)
    && DistinctModels(c.models) && (forall m <- c.models :: SafeModel(printable, m))
  }

  predicate DistinctNames(names: seq<string>) {
    forall i, j :: 0 <= i < j < |names| ==> names[i] != names[j]
  }

  ghost predicate SafePatch(printable: char -> bool, p: Patch) {
    KnownProvider(p.name) && SafeProvider(printable, Updated(ProviderAt(map[], p.name), p))
  }

  ghost predicate ValidGateway(printable: char -> bool, g: GatewayPatch) {
    if !g.isSet then g.apiKeyEnv == "" && g.apiKeyFile == "" && !g.keyExplicit
    else
      && (g.apiKeyEnv == "" || g.apiKeyFile == "")
      && SafeOrEmpty(printable, g.apiKeyEnv) && SafeOrEmpty(printable, g.apiKeyFile)
      && (g.keyExplicit ==> g.apiKeyFile != "")
  }

  ghost predicate ValidDesired(printable: char -> bool, d: Desired) {
    && d.selected != [] && DistinctNames(d.selected) && |d.providers| == |d.selected|
    && SafeText(printable, d.newRuntimeRoot) && ValidGateway(printable, d.gateway)
    && DistinctPatches(d.providers) && (forall p <- d.providers :: p.name in d.selected && SafePatch(printable, p))
    && DistinctMappings(d.models)
    && (forall m <- d.models :: m.provider in d.selected && SafeModel(printable, NewModel(m)))
    && (forall name <- d.replaceProviders :: name in d.selected)
    && (forall id <- d.replaceModels :: id in MappingIds(d.models))
  }

  // ---- the plan ----

  predicate SelectedModelsPresent(models: seq<Model>, selected: seq<string>) {
    forall name <- selected :: exists m <- models :: m.provider == name
  }

  function MergedDiff(before: Config, d: Desired): seq<DiffEntry> {
    ProviderEntries(before.providers, d.providers) + GatewayEntries(before.server, d.gateway) + ModelEntries(before.models, d.models)
  }

  function MergedCollisions(before: Config, d: Desired): seq<Collision> {
    Replaced(ProviderEntries(before.providers, d.providers)) + Replaced(ModelEntries(before.models, d.models))
  }

  predicate Changes(diff: seq<DiffEntry>) {
    exists e <- diff :: !e.kind.DiffUnchanged?
  }

  predicate Authorized(collisions: seq<Collision>, d: Desired) {
    forall c <- collisions ::
      match c.target
      case DiffProvider => c.name in d.replaceProviders
      case DiffModel => c.name in d.replaceModels
      case DiffGatewayAuth => false
  }

  /** The configuration after a merge, given its planned providers. */
  ghost predicate MergedConfig(before: Config, after: Config, d: Desired) {
    && Patched(before.providers, after.providers, d.providers)
    && after.server == AfterGateway(before.server, d.gateway)
    && after.models == AfterModels(before.models, d.models)
    && after.runtimeRoot == before.runtimeRoot
  }

  predicate KeyPlanned(plan: Plan, before: Option<Config>, d: Desired) {
    var keyPath := plan.config.server.apiKeyFile;
    if keyPath == "" then plan.keyAction.KeyActionNone? && plan.keyPath == "" && !plan.keyAllowExisting
    else
      && plan.keyPath == keyPath
      && if before.Some? && before.value.server.apiKeyFile == keyPath then plan.keyAction.KeyActionInspect? && !plan.keyAllowExisting
         else
           && plan.keyAction.KeyActionEnsure?
           && (plan.keyAllowExisting <==> d.gateway.isSet && d.gateway.keyExplicit && d.gateway.apiKeyFile == keyPath)
  }

  ghost predicate Merged(before: Config, d: Desired, plan: Plan) {
    && MergedConfig(before, plan.config, d)
    && plan.diff == MergedDiff(before, d)
    && plan.collisions == MergedCollisions(before, d)
    && (plan.changed <==> Changes(plan.diff))
    && KeyPlanned(plan, Some(before), d)
  }

  function FreshGateway(server: Server): DiffEntry {
    var source := if GatewayMode(server) == "file" then [DiffField("key_file", "", server.apiKeyFile)]
                  else if GatewayMode(server) == "environment" then [DiffField("key_env", "", server.apiKeyEnv)]
                  else [];
    DiffEntry(DiffAdded, DiffGatewayAuth, "gateway", [DiffField("mode", "", GatewayMode(server))] + source)
  }

  function FreshDiff(d: Desired): seq<DiffEntry> {
    [FreshGateway(Server(d.gateway.apiKeyEnv, d.gateway.apiKeyFile, 0))]
    + seq(|d.providers|, i requires 0 <= i < |d.providers| => DiffEntry(DiffAdded, DiffProvider, d.providers[i].name, []))
    + ModelEntries([], d.models)
  }

  /** What decoding a freshly rendered file gives; models are rendered in another order. */
  ghost predicate FreshConfig(d: Desired, c: Config) {
    && c.providers.Keys == PatchNames(d.providers)
    && (forall p <- d.providers :: c.providers[p.name] == Updated(ProviderAt(map[], p.name), p))
    && |c.models| == |d.models| && DistinctModels(c.models) && (forall m <- d.models :: NewModel(m) in c.models)
    && c.server.apiKeyEnv == d.gateway.apiKeyEnv && c.server.apiKeyFile == d.gateway.apiKeyFile
    && c.runtimeRoot == d.newRuntimeRoot
  }

  ghost predicate Fresh(d: Desired, plan: Plan) {
    && d.gateway.isSet && d.models != []
    && FreshConfig(d, plan.config) && plan.diff == FreshDiff(d) && plan.collisions == [] && plan.changed
    && KeyPlanned(plan, None, d)
  }

  /** A plan the planner returns without an error. */
  ghost predicate Accepted(before: Option<Config>, d: Desired, plan: Plan) {
    match before
    case None => Fresh(d, plan) && SelectedModelsPresent(plan.config.models, d.selected)
    case Some(b) =>
      && Merged(b, d, plan)
      && (plan.changed ==> SelectedModelsPresent(plan.config.models, d.selected) && Authorized(plan.collisions, d))
  }

  datatype MergeError = PlanError | CollisionError

  method SetKeyPlan(config: Config, before: Config, d: Desired) returns (action: KeyAction, path: string, allowExisting: bool)
    ensures forall plan: Plan | plan.config == config && plan.keyAction == action && plan.keyPath == path
                                && plan.keyAllowExisting == allowExisting :: KeyPlanned(plan, Some(before), d)
    ensures path == config.server.apiKeyFile && (action == KeyActionNone <==> path == "")
    ensures action == KeyActionInspect <==> path != "" && path == before.server.apiKeyFile
    ensures action == KeyActionEnsure <==> path != "" && path != before.server.apiKeyFile
    ensures allowExisting <==> action == KeyActionEnsure && d.gateway == GatewayPatch(true, d.gateway.apiKeyEnv, path, true)
  {
    action, path, allowExisting := KeyActionNone, "", false;
    if config.server.apiKeyFile == "" {
      return;
    }
    path := config.server.apiKeyFile;
    if before.server.apiKeyFile == path {
      action := KeyActionInspect;
      return;
    }
    action := KeyActionEnsure;
    allowExisting := d.gateway.isSet && d.gateway.keyExplicit && d.gateway.apiKeyFile == path;
  }

  /** Merging into an existing configuration; `rendered` is the verdict of the source edits and the decoder. */
  method PlanMerge(before: Config, d: Desired, rendered: bool) returns (plan: Plan, error: Option<MergeError>)
    requires DistinctPatches(d.providers) && DistinctMappings(d.models) && DistinctModels(before.models)
    ensures error.None? ==> Accepted(Some(before), d, plan)
    ensures error == Some(CollisionError) ==> Merged(before, d, plan) && !Authorized(plan.collisions, d)
    ensures error == Some(PlanError) ==> !rendered || !SelectedModelsPresent(AfterModels(before.models, d.models), d.selected)
  {
    hide Patched, AfterModels, AfterGateway, DistinctPatches, DistinctMappings, DistinctModels, KeyPlanned, ProviderEntries, ModelEntries, Replaced;
    var providers, providerDiff, providerCollisions := PlanProviders(before.providers, d.providers);
    var server, gatewayChanged, gatewayDiff := PlanGateway(before.server, d.gateway);
    var models, modelDiff, modelCollisions := PlanModels(before.models, d.models);
    var config := Config(server, before.runtimeRoot, providers, models);
    var diff := providerDiff + gatewayDiff + modelDiff;
    var changed := Changes(diff);
    var action, path, allow := SetKeyPlan(config, before, d);
    plan := Plan(config, diff, providerCollisions + modelCollisions, changed, action, path, allow);
    error := None;
    if !changed {
      return;
    }
    if !rendered || !SelectedModelsPresent(models, d.selected) {
      error := Some(PlanError);
    } else if !Authorized(plan.collisions, d) {
      error := Some(CollisionError);
    }
  }
}
