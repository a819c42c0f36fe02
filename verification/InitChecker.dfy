/** The independent check of a final plan, and the proof that it accepts what the planner returns. */
module InitChecker {
  import opened InitMerge
  import opened InitPlan
  import opened ModelAlias
  import opened Options

  // ---- the diff on its own ----

  function FieldOrder(target: DiffTarget): seq<string> {
    match target
    case DiffGatewayAuth => ["mode", "key_file", "key_env"]
    case DiffProvider => ["executable", "prefix_args", "config_home", "credential_env", "concurrency", "queue_size",
                          "queue_bytes", "queue_timeout", "execution_timeout"]
    case DiffModel => ["provider", "provider_model"]
  }

  predicate SafeGatewayMode(value: string) {
    value == "" || value == "file" || value == "environment" || value == "none"
  }

  ghost predicate ValidDiffName(printable: char -> bool, target: DiffTarget, name: string) {
    match target
    case DiffGatewayAuth => name == "gateway"
    case DiffProvider => KnownProvider(name)
    case DiffModel => SafeText(printable, name) && ValidAlias(name)
  }

  ghost predicate ValidField(printable: char -> bool, target: DiffTarget, f: DiffField) {
    && f.name in FieldOrder(target) && SafeOrEmpty(printable, f.before) && SafeOrEmpty(printable, f.after)
    && (target.DiffGatewayAuth? && f.name == "mode" ==> SafeGatewayMode(f.before) && SafeGatewayMode(f.after))
  }

  predicate DistinctFields(fields: seq<DiffField>) {
    forall i, j :: 0 <= i < j < |fields| ==> fields[i].name != fields[j].name
  }

  ghost predicate ValidEntry(printable: char -> bool, e: DiffEntry) {
    && ValidDiffName(printable, e.target, e.name)
    && (forall f <- e.fields :: ValidField(printable, e.target, f))
    && DistinctFields(e.fields)
  }

  predicate DistinctEntries(entries: seq<DiffEntry>) {
    forall i, j :: 0 <= i < j < |entries| ==> entries[i].target != entries[j].target || entries[i].name != entries[j].name
  }

  /** Fields with distinct allowed names, put in the order of those names. */
  function Ordered(fields: seq<DiffField>, order: seq<string>): seq<DiffField> {
    if order == [] then []
    else (if exists f <- fields :: f.name == order[0] then [FieldNamed(fields, order[0])] else []) + Ordered(fields, order[1..])
  }

  function FieldNamed(fields: seq<DiffField>, name: string): (f: DiffField)
    requires exists g <- fields :: g.name == name
    ensures f in fields && f.name == name
  {
    if fields[0].name == name then fields[0] else FieldNamed(fields[1..], name)
  }

  ghost predicate ValidEntries(printable: char -> bool, entries: seq<DiffEntry>) {
    (forall e <- entries :: ValidEntry(printable, e)) && DistinctEntries(entries)
  }

  // ---- the diff against the plan ----

  predicate ExpectedEntry(e: DiffEntry, d: Desired) {
    match e.target
    case DiffGatewayAuth => d.gateway.isSet && e.name == "gateway"
    case DiffProvider => exists p <- d.providers :: p.name == e.name
    case DiffModel => exists m <- d.models :: m.id == e.name
  }

  /** The value the final configuration has for a diff field. */
  function FinalValue(e: DiffEntry, name: string, c: Config): Option<string> {
    match e.target
    case DiffGatewayAuth =>
      if name == "mode" then Some(GatewayMode(c.server))
      else if name == "key_file" then Some(c.server.apiKeyFile)
      else if name == "key_env" then Some(c.server.apiKeyEnv)
      else None
    case DiffProvider =>
      if e.name !in c.providers then None
      else if name == "executable" then Some(c.providers[e.name].executable)
      else if name == "prefix_args" then Some(Join(c.providers[e.name].prefixArgs))
      else if name == "config_home" then Some(c.providers[e.name].configHome)
      else if name == "credential_env" then Some(Join(c.providers[e.name].credentialEnv))
      else None
    case DiffModel =>
      var m := FindModel(c.models, e.name);
      if m.None? then None
      else if name == "provider" then Some(m.value.provider)
      else if name == "provider_model" then Some(m.value.providerModel)
      else None
  }

  predicate AfterMatchesConfig(e: DiffEntry, c: Config) {
    forall f <- e.fields :: FinalValue(e, f.name, c) == Some(f.after)
  }

  predicate DiffMatchesPlan(entries: seq<DiffEntry>, d: Desired, c: Config) {
    && |entries| == (if d.gateway.isSet then 1 else 0) + |d.providers| + |d.models|
    && forall e <- entries :: ExpectedEntry(e, d) && AfterMatchesConfig(e, c)
  }

  // ---- entry shapes ----

  predicate PlanIsFresh(entries: seq<DiffEntry>, d: Desired, c: Config) {
    && d.gateway.isSet && |c.providers| == |d.providers| && |c.models| == |d.models|
    && (forall p <- d.providers :: p.name in c.providers)
    && (forall m <- d.models :: FindModel(c.models, m.id).Some?)
    && exists e <- entries :: e.target.DiffGatewayAuth? && e.kind.DiffAdded?
  }

  predicate ExactFields(fields: seq<DiffField>, names: seq<string>) {
    |fields| == |names| && forall f <- fields :: f.name in names
  }

  predicate HasField(fields: seq<DiffField>, name: string) {
    exists f <- fields :: f.name == name
  }

  predicate EmptyBefore(fields: seq<DiffField>) {
    forall f <- fields :: f.before == ""
  }

  predicate AllChanged(fields: seq<DiffField>) {
    fields != [] && forall f <- fields :: f.before != f.after
  }

  predicate GatewayShape(e: DiffEntry, isFresh: bool, server: Server) {
    match e.kind
    case DiffAdded =>
      && isFresh && EmptyBefore(e.fields)
      && ExactFields(e.fields, ["mode"] + if server.apiKeyFile != "" then ["key_file"]
                                          else if server.apiKeyEnv != "" then ["key_env"] else [])
    case DiffUnchanged => !isFresh && ExactFields(e.fields, ["mode"]) && e.fields[0].before == e.fields[0].after
    case DiffReplaced =>
      && !isFresh && HasField(e.fields, "mode")
      && (forall f <- e.fields :: f.name == "key_file" || f.name == "key_env" ==> f.before != f.after)
      && (HasField(e.fields, "key_file") || HasField(e.fields, "key_env"))
      && (server.apiKeyFile != "" ==> HasField(e.fields, "key_file"))
      && (server.apiKeyEnv != "" ==> HasField(e.fields, "key_env"))
  }

  predicate ProviderShape(e: DiffEntry, isFresh: bool) {
    match e.kind
    case DiffAdded =>
      if isFresh then e.fields == []
      else ExactFields(e.fields, ["executable", "prefix_args", "config_home", "credential_env"]) && EmptyBefore(e.fields)
    case DiffUnchanged => !isFresh && e.fields == []
    case DiffReplaced => !isFresh && AllChanged(e.fields)
  }

  predicate ModelShape(e: DiffEntry, isFresh: bool) {
    match e.kind
    case DiffAdded => ExactFields(e.fields, ["provider", "provider_model"]) && EmptyBefore(e.fields)
    case DiffUnchanged => !isFresh && e.fields == []
    case DiffReplaced => !isFresh && AllChanged(e.fields)
  }

  predicate Shape(e: DiffEntry, isFresh: bool, server: Server) {
    match e.target
    case DiffGatewayAuth => GatewayShape(e, isFresh, server)
    case DiffProvider => ProviderShape(e, isFresh)
    case DiffModel => ModelShape(e, isFresh)
  }

  // ---- collisions, desired values and key work ----

  predicate DistinctCollisions(collisions: seq<Collision>) {
    forall i, j :: 0 <= i < j < |collisions| ==>
      collisions[i].target != collisions[j].target || collisions[i].name != collisions[j].name
  }

  ghost predicate ValidCollision(printable: char -> bool, c: Collision, entries: seq<DiffEntry>) {
    && !c.target.DiffGatewayAuth?
    && exists e <- entries :: e.target == c.target && e.name == c.name && e.kind.DiffReplaced?
                              && ValidEntry(printable, DiffEntry(e.kind, c.target, c.name, c.fields))
                              && Ordered(c.fields, FieldOrder(c.target)) == Ordered(e.fields, FieldOrder(e.target))
  }

  ghost predicate CollisionsConverged(printable: char -> bool, entries: seq<DiffEntry>, collisions: seq<Collision>, d: Desired) {
    && Authorized(collisions, d) && DistinctCollisions(collisions)
    && (forall c <- collisions :: ValidCollision(printable, c, entries))
    && (forall e <- entries :: e.kind.DiffReplaced? && !e.target.DiffGatewayAuth? ==>
          exists c <- collisions :: c.target == e.target && c.name == e.name)
  }

  predicate DesiredMatchesConfig(d: Desired, c: Config) {
    && (d.gateway.isSet ==> c.server.apiKeyFile == d.gateway.apiKeyFile && c.server.apiKeyEnv == d.gateway.apiKeyEnv)
    && (forall p <- d.providers :: p.name in c.providers && Updated(c.providers[p.name], p) == c.providers[p.name])
    && (forall m <- d.models :: FindModel(c.models, m.id).Some? && Mapped(FindModel(c.models, m.id).value, m) == FindModel(c.models, m.id).value)
  }

  predicate ValidKeyPlan(plan: Plan, entries: seq<DiffEntry>) {
    var keyPath := plan.config.server.apiKeyFile;
    if keyPath == "" then plan.keyAction.KeyActionNone? && plan.keyPath == "" && !plan.keyAllowExisting
    else
      && plan.keyPath == keyPath
      && var newPath := exists e <- entries :: e.target.DiffGatewayAuth? && !e.kind.DiffUnchanged?
                                              && exists f <- e.fields :: f.name == "key_file" && f.after == keyPath;
         if newPath then plan.keyAction.KeyActionEnsure?
         else !plan.keyAction.KeyActionNone? && !plan.keyAllowExisting
  }

  /** The final check of a plan. */
  ghost predicate ValidFinal(printable: char -> bool, plan: Plan, d: Desired) {
    && ValidDesired(printable, d)
    && SelectedModelsPresent(plan.config.models, d.selected)
    && ValidEntries(printable, plan.diff) && plan.diff != []
    && DiffMatchesPlan(plan.diff, d, plan.config)
    && (var isFresh := PlanIsFresh(plan.diff, d, plan.config);
        && (forall e <- plan.diff :: Shape(e, isFresh, plan.config.server))
        && (isFresh ==> plan.config.runtimeRoot == d.newRuntimeRoot))
    && CollisionsConverged(printable, plan.diff, plan.collisions, d)
    && (plan.changed <==> Changes(plan.diff))
    && DesiredMatchesConfig(d, plan.config)
    && ValidKeyPlan(plan, plan.diff)
  }
}
