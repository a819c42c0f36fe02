/** What the final check guarantees of any plan it accepts, whoever made the plan. */
module InitAccepted {
  import opened InitChecker
  import opened InitMerge
  import opened InitPlan
  import opened Options
  import opened SetSizes

  /** The desired state asks for this. */
  ghost predicate Asked(d: Desired, target: DiffTarget, name: string) {
    match target
    case DiffGatewayAuth => d.gateway.isSet && name == "gateway"
    case DiffProvider => exists p <- d.providers :: p.name == name
    case DiffModel => exists m <- d.models :: m.id == name
  }

  /** The value after the change is the one the planned configuration has. */
  ghost predicate ShowsFinal(c: Config, e: DiffEntry, f: DiffField) {
    match e.target
    case DiffGatewayAuth =>
      || (f.name == "mode" && f.after == if c.server.apiKeyFile != "" then "file" else if c.server.apiKeyEnv != "" then "environment" else "none")
      || f == DiffField("key_file", f.before, c.server.apiKeyFile)
      || f == DiffField("key_env", f.before, c.server.apiKeyEnv)
    case DiffProvider =>
      e.name in c.providers &&
      var p := c.providers[e.name];
      || f == DiffField("executable", f.before, p.executable) || f == DiffField("prefix_args", f.before, Join(p.prefixArgs))
      || f == DiffField("config_home", f.before, p.configHome) || f == DiffField("credential_env", f.before, Join(p.credentialEnv))
    case DiffModel =>
      exists m <- c.models :: m.id == e.name
        && (f == DiffField("provider", f.before, m.provider) || f == DiffField("provider_model", f.before, m.providerModel))
  }

  ghost function Names(fields: seq<DiffField>): set<string> {
    set f <- fields :: f.name
  }

  /** A plan for a new installation adds everything, and its configuration has nothing else. */
  ghost predicate IsFresh(plan: Plan, d: Desired) {
    exists e <- plan.diff :: e.target == DiffGatewayAuth && e.kind == DiffAdded
  }

  /** What an entry shows: all of what was added, nothing of what is as it was, and of a replacement only what differs. */
  ghost predicate ShowsChange(e: DiffEntry, isFresh: bool, server: Server) {
    match e.kind
    case DiffAdded =>
      && (forall f <- e.fields :: f.before == "")
      && (match e.target
          case DiffGatewayAuth =>
            isFresh && Names(e.fields) == {"mode"} + (if server.apiKeyFile != "" then {"key_file"} else if server.apiKeyEnv != "" then {"key_env"} else {})
          case DiffProvider => Names(e.fields) == if isFresh then {} else {"executable", "prefix_args", "config_home", "credential_env"}
          case DiffModel => Names(e.fields) == {"provider", "provider_model"})
    case DiffUnchanged =>
      && !isFresh && (forall f <- e.fields :: f.before == f.after)
      && Names(e.fields) == if e.target == DiffGatewayAuth then {"mode"} else {}
    case DiffReplaced =>
      && !isFresh && (forall f <- e.fields :: f.name != "mode" ==> f.before != f.after)
      && (if e.target == DiffGatewayAuth
          then "mode" in Names(e.fields) && Names(e.fields) != {"mode"}
               && (server.apiKeyFile != "" ==> "key_file" in Names(e.fields)) && (server.apiKeyEnv != "" ==> "key_env" in Names(e.fields))
          else e.fields != [])
  }

  /** The collision is that of a replaced entry, with the same fields. */
  ghost predicate IsOfEntry(c: Collision, entries: seq<DiffEntry>) {
    exists e <- entries :: e.kind == DiffReplaced && (e.target, e.name) == (c.target, c.name) && forall f :: f in e.fields <==> f in c.fields
  }

  ghost predicate HasCollision(e: DiffEntry, collisions: seq<Collision>) {
    exists c <- collisions :: (c.target, c.name) == (e.target, e.name)
  }

  ghost predicate NoneTwice(collisions: seq<Collision>) {
    forall i, j | 0 <= i < |collisions| && 0 <= j < |collisions| && i != j ::
      (collisions[i].target, collisions[i].name) != (collisions[j].target, collisions[j].name)
  }

  /** One collision for each replaced provider or model, with the fields of its entry, approved by name. */
  ghost predicate Approved(plan: Plan, d: Desired) {
    && NoneTwice(plan.collisions) && (forall c <- plan.collisions :: IsOfEntry(c, plan.diff))
    && (forall c <- plan.collisions ::
          (c.target == DiffProvider && c.name in d.replaceProviders) || (c.target == DiffModel && c.name in d.replaceModels))
    && (forall e <- plan.diff | e.kind == DiffReplaced && e.target != DiffGatewayAuth :: HasCollision(e, plan.collisions))
  }

  /** The configuration has what is desired. */
  ghost predicate HasDesired(d: Desired, c: Config) {
    && (d.gateway.isSet ==> (c.server.apiKeyFile, c.server.apiKeyEnv) == (d.gateway.apiKeyFile, d.gateway.apiKeyEnv))
    && (forall p <- d.providers ::
          && p.name in c.providers
          && p == Patch(p.name, c.providers[p.name].executable, c.providers[p.name].prefixArgs, c.providers[p.name].configHome,
                        c.providers[p.name].credentialEnv))
    && (forall m <- d.models :: exists n <- c.models :: m == Mapping(n.id, n.provider, n.providerModel))
    && (forall name <- d.selected :: exists m <- c.models :: m.provider == name)
  }

  /** The key work is about the key file of the configuration, and a file named by the diff is ensured. */
  ghost predicate KeyFits(plan: Plan) {
    && plan.keyPath == plan.config.server.apiKeyFile
    && (plan.keyAction == KeyActionNone <==> plan.keyPath == "")
    && (plan.keyAllowExisting ==> plan.keyAction == KeyActionEnsure)
    && (plan.keyPath != "" ==>
          var named := exists e <- plan.diff, f <- e.fields ::
                         e.target == DiffGatewayAuth && e.kind != DiffUnchanged && f.name == "key_file" && f.after == plan.keyPath;
          (named ==> plan.keyAction == KeyActionEnsure) && (plan.keyAllowExisting ==> named))
  }

  // ---- counting ----

  ghost function Keys(entries: seq<DiffEntry>): set<(DiffTarget, string)> {
    set e <- entries :: (e.target, e.name)
  }

  ghost function AskedKeys(d: Desired): set<(DiffTarget, string)> {
    (if d.gateway.isSet then {(DiffGatewayAuth, "gateway")} else {})
    + (set p <- d.providers :: (DiffProvider, p.name)) + (set m <- d.models :: (DiffModel, m.id))
  }

  lemma {:induction false} KeysCounted(entries: seq<DiffEntry>)
    requires DistinctEntries(entries)
    ensures |Keys(entries)| == |entries|
  {
    if entries != [] {
      var rest, last := entries[..|entries| - 1], entries[|entries| - 1];
      LastEntryIsNew(entries);
      KeysCounted(rest);
      assert entries == rest + [last];
      hide DistinctEntries;
      assert Keys(entries) == Keys(rest) + {(last.target, last.name)};
    }
  }

  lemma LastEntryIsNew(entries: seq<DiffEntry>)
    requires DistinctEntries(entries) && entries != []
    ensures var rest, last := entries[..|entries| - 1], entries[|entries| - 1];
            DistinctEntries(rest) && (last.target, last.name) !in Keys(rest)
  {
    var rest, last := entries[..|entries| - 1], entries[|entries| - 1];
    forall e <- rest
      ensures (e.target, e.name) != (last.target, last.name)
    {
      var i :| 0 <= i < |rest| && entries[i] == e;
    }
  }

  lemma {:induction false} ProvidersCounted(patches: seq<Patch>)
    ensures |set p <- patches :: (DiffProvider, p.name)| <= |patches|
  {
    if patches != [] {
      var rest, last := patches[..|patches| - 1], patches[|patches| - 1];
      ProvidersCounted(rest);
      assert patches == rest + [last];
      assert (set p <- patches :: (DiffProvider, p.name)) == (set p <- rest :: (DiffProvider, p.name)) + {(DiffProvider, last.name)};
    }
  }

  lemma {:induction false} ModelsCounted(mappings: seq<Mapping>)
    ensures |set m <- mappings :: (DiffModel, m.id)| <= |mappings|
  {
    if mappings != [] {
      var rest, last := mappings[..|mappings| - 1], mappings[|mappings| - 1];
      ModelsCounted(rest);
      assert mappings == rest + [last];
      assert (set m <- mappings :: (DiffModel, m.id)) == (set m <- rest :: (DiffModel, m.id)) + {(DiffModel, last.id)};
    }
  }

  lemma LastIsNew(fields: seq<DiffField>)
    requires DistinctFields(fields) && fields != []
    ensures DistinctFields(fields[..|fields| - 1]) && fields[|fields| - 1].name !in Names(fields[..|fields| - 1])
  {
    forall f <- fields[..|fields| - 1]
      ensures f.name != fields[|fields| - 1].name
    {
      var i :| 0 <= i < |fields| - 1 && fields[i] == f;
    }
  }

  lemma {:induction false} NamesCounted(fields: seq<DiffField>)
    requires DistinctFields(fields)
    ensures |Names(fields)| == |fields|
  {
    if fields != [] {
      var rest, last := fields[..|fields| - 1], fields[|fields| - 1];
      LastIsNew(fields);
      NamesCounted(rest);
      assert fields == rest + [last];
      hide DistinctFields;
      assert Names(fields) == Names(rest) + {last.name};
    }
  }

  /** As many entries as things asked for, all different and all asked for, are entries for all of them. */
  lemma AllAsked(entries: seq<DiffEntry>, d: Desired, c: Config)
    requires DistinctEntries(entries) && DiffMatchesPlan(entries, d, c)
    ensures Keys(entries) == AskedKeys(d)
  {
    KeysCounted(entries);
    ProvidersCounted(d.providers);
    ModelsCounted(d.models);
    hide AfterMatchesConfig;
    forall key <- Keys(entries)
      ensures key in AskedKeys(d)
    {
      var e :| e in entries && (e.target, e.name) == key;
      assert ExpectedEntry(e, d);
    }
    SubsetOfSameSize(Keys(entries), AskedKeys(d));
  }

  lemma AskedIs(d: Desired, target: DiffTarget, name: string)
    ensures Asked(d, target, name) <==> (target, name) in AskedKeys(d)
  {
  }

  lemma FieldsAre(fields: seq<DiffField>, names: seq<string>, wanted: set<string>)
    requires DistinctFields(fields) && ExactFields(fields, names) && wanted == (set n <- names) && |wanted| <= |names|
    ensures Names(fields) == wanted
  {
    NamesCounted(fields);
    SubsetOfSameSize(Names(fields), wanted);
  }

  // ---- the guarantees ----

  lemma AfterIsFinal(c: Config, e: DiffEntry)
    requires AfterMatchesConfig(e, c)
    ensures forall f <- e.fields :: ShowsFinal(c, e, f)
  {
    forall f <- e.fields
      ensures ShowsFinal(c, e, f)
    {
      assert FinalValue(e, f.name, c) == Some(f.after) && f == DiffField(f.name, f.before, f.after);
    }
  }

  lemma ShapeShows(e: DiffEntry, isFresh: bool, server: Server)
    requires DistinctFields(e.fields) && (forall f <- e.fields :: f.name in FieldOrder(e.target)) && Shape(e, isFresh, server)
    ensures ShowsChange(e, isFresh, server)
  {
    hide ExactFields;
    match e.target
    case DiffGatewayAuth => GatewayShows(e, isFresh, server);
    case DiffProvider =>
      if e.kind.DiffAdded? && !isFresh {
        FieldsAre(e.fields, ["executable", "prefix_args", "config_home", "credential_env"], {"executable", "prefix_args", "config_home", "credential_env"});
      }
    case DiffModel =>
      if e.kind.DiffAdded? {
        FieldsAre(e.fields, ["provider", "provider_model"], {"provider", "provider_model"});
      }
  }

  lemma GatewayShows(e: DiffEntry, isFresh: bool, server: Server)
    requires DistinctFields(e.fields) && e.target == DiffGatewayAuth && (forall f <- e.fields :: f.name in ["mode", "key_file", "key_env"])
    requires GatewayShape(e, isFresh, server)
    ensures ShowsChange(e, isFresh, server)
  {
    match e.kind
    case DiffAdded => GatewayAddedShows(e, isFresh, server);
    case DiffUnchanged =>
      FieldsAre(e.fields, ["mode"], {"mode"});
    case DiffReplaced =>
      HasIs(e.fields, "mode");
      HasIs(e.fields, "key_file");
      HasIs(e.fields, "key_env");
      hide Names, HasField;
  }

  lemma GatewayAddedShows(e: DiffEntry, isFresh: bool, server: Server)
    requires DistinctFields(e.fields) && e.target == DiffGatewayAuth && e.kind == DiffAdded && GatewayShape(e, isFresh, server)
    ensures ShowsChange(e, isFresh, server)
  {
    if server.apiKeyFile != "" {
      assert ["mode"] + ["key_file"] == ["mode", "key_file"];
      FieldsAre(e.fields, ["mode", "key_file"], {"mode", "key_file"});
    } else if server.apiKeyEnv != "" {
      assert ["mode"] + ["key_env"] == ["mode", "key_env"];
      FieldsAre(e.fields, ["mode", "key_env"], {"mode", "key_env"});
    } else {
      assert ["mode"] + [] == ["mode"];
      FieldsAre(e.fields, ["mode"], {"mode"});
    }
    hide Names, ExactFields;
  }

  lemma HasIs(fields: seq<DiffField>, name: string)
    ensures HasField(fields, name) <==> name in Names(fields)
  {
  }

  lemma {:induction false} OrderedHas(fields: seq<DiffField>, order: seq<string>, f: DiffField)
    requires DistinctFields(fields)
    ensures f in Ordered(fields, order) <==> f in fields && f.name in order
  {
    if order != [] {
      OrderedHas(fields, order[1..], f);
      assert order == [order[0]] + order[1..];
      if f in fields && f.name == order[0] {
        OneNamed(fields, f);
      }
    }
  }

  lemma OneNamed(fields: seq<DiffField>, f: DiffField)
    requires DistinctFields(fields) && f in fields
    ensures FieldNamed(fields, f.name) == f
  {
    var g := FieldNamed(fields, f.name);
    var i :| 0 <= i < |fields| && fields[i] == f;
    var j :| 0 <= j < |fields| && fields[j] == g;
  }

  lemma CollisionsApproved(printable: char -> bool, plan: Plan, d: Desired)
    requires ValidEntries(printable, plan.diff) && CollisionsConverged(printable, plan.diff, plan.collisions, d)
    ensures Approved(plan, d)
  {
    hide ValidEntries, ValidCollision, IsOfEntry, NoneTwice, HasCollision, CollisionsConverged, Authorized, DistinctCollisions;
    EachHasCollision(printable, plan, d);
    CollisionsOnce(plan.collisions);
    CollisionsNamed(plan.collisions, d);
    EachIsOfEntry(printable, plan.diff, plan.collisions);
  }

  lemma EachHasCollision(printable: char -> bool, plan: Plan, d: Desired)
    requires CollisionsConverged(printable, plan.diff, plan.collisions, d)
    ensures forall e <- plan.diff | e.kind == DiffReplaced && e.target != DiffGatewayAuth :: HasCollision(e, plan.collisions)
    ensures Authorized(plan.collisions, d) && DistinctCollisions(plan.collisions)
    ensures forall c <- plan.collisions :: ValidCollision(printable, c, plan.diff)
  {
    hide Authorized, DistinctCollisions, ValidCollision;
    forall e <- plan.diff | e.kind == DiffReplaced && e.target != DiffGatewayAuth
      ensures HasCollision(e, plan.collisions)
    {
      assert e.kind.DiffReplaced? && !e.target.DiffGatewayAuth?;
    }
  }

  lemma CollisionsNamed(collisions: seq<Collision>, d: Desired)
    requires Authorized(collisions, d)
    ensures forall c <- collisions ::
              (c.target == DiffProvider && c.name in d.replaceProviders) || (c.target == DiffModel && c.name in d.replaceModels)
  {
  }

  lemma EachIsOfEntry(printable: char -> bool, entries: seq<DiffEntry>, collisions: seq<Collision>)
    requires ValidEntries(printable, entries) && forall c <- collisions :: ValidCollision(printable, c, entries)
    ensures forall c <- collisions :: IsOfEntry(c, entries)
  {
    hide ValidCollision, ValidEntries, IsOfEntry;
    forall c <- collisions
      ensures IsOfEntry(c, entries)
    {
      CollisionShown(printable, c, entries);
    }
  }

  lemma CollisionsOnce(collisions: seq<Collision>)
    ensures DistinctCollisions(collisions) ==> NoneTwice(collisions)
  {
  }

  lemma CollisionShown(printable: char -> bool, c: Collision, entries: seq<DiffEntry>)
    requires ValidEntries(printable, entries) && ValidCollision(printable, c, entries)
    ensures IsOfEntry(c, entries)
  {
    hide ValidEntry;
    var e :| e in entries && e.target == c.target && e.name == c.name && e.kind.DiffReplaced?
             && ValidEntry(printable, DiffEntry(e.kind, c.target, c.name, c.fields))
             && Ordered(c.fields, FieldOrder(c.target)) == Ordered(e.fields, FieldOrder(e.target));
    assert ValidEntry(printable, e);
    SameFields(printable, e, c.fields);
  }

  lemma SameFields(printable: char -> bool, e: DiffEntry, fields: seq<DiffField>)
    requires ValidEntry(printable, e) && ValidEntry(printable, e.(fields := fields))
    requires Ordered(fields, FieldOrder(e.target)) == Ordered(e.fields, FieldOrder(e.target))
    ensures forall f :: f in e.fields <==> f in fields
  {
    forall f: DiffField
      ensures f in e.fields <==> f in fields
    {
      OrderedHas(fields, FieldOrder(e.target), f);
      OrderedHas(e.fields, FieldOrder(e.target), f);
      assert f in e.fields ==> ValidField(printable, e.target, f);
      assert f in fields ==> ValidField(printable, e.target, f);
    }
  }

  lemma FreshIs(plan: Plan, d: Desired)
    requires DiffMatchesPlan(plan.diff, d, plan.config)
    requires forall e <- plan.diff :: Shape(e, PlanIsFresh(plan.diff, d, plan.config), plan.config.server)
    ensures PlanIsFresh(plan.diff, d, plan.config) <==> IsFresh(plan, d)
  {
    hide DiffMatchesPlan;
    if IsFresh(plan, d) {
      var g :| g in plan.diff && g.target == DiffGatewayAuth && g.kind == DiffAdded;
      assert Shape(g, PlanIsFresh(plan.diff, d, plan.config), plan.config.server);
    }
  }

  lemma DesiredIsThere(d: Desired, c: Config)
    requires DesiredMatchesConfig(d, c) && SelectedModelsPresent(c.models, d.selected)
    ensures HasDesired(d, c)
  {
    forall m <- d.models
      ensures exists n <- c.models :: m == Mapping(n.id, n.provider, n.providerModel)
    {
      var n := FindModel(c.models, m.id).value;
      assert n in c.models && Mapped(n, m) == n && m == Mapping(n.id, n.provider, n.providerModel);
    }
  }

  /**
   An accepted plan has one entry for each thing asked for and no other, each showing the
   values of the planned configuration; every replacement is approved; the configuration has
   what is desired; the key work is about its key file. For a new installation it has nothing else.
   */
  lemma AcceptedMeans(printable: char -> bool, plan: Plan, d: Desired)
    requires ValidFinal(printable, plan, d)
    ensures forall target, name :: Asked(d, target, name) <==> exists e <- plan.diff :: (e.target, e.name) == (target, name)
    ensures forall e <- plan.diff, e' <- plan.diff :: (e.target, e.name) == (e'.target, e'.name) ==> e == e'
    ensures forall e <- plan.diff, f <- e.fields :: ShowsFinal(plan.config, e, f)
    ensures forall e <- plan.diff :: ShowsChange(e, IsFresh(plan, d), plan.config.server)
    ensures IsFresh(plan, d) ==>
              plan.config.runtimeRoot == d.newRuntimeRoot && |plan.config.providers| == |d.providers| && |plan.config.models| == |d.models|
    ensures Approved(plan, d) && HasDesired(d, plan.config) && KeyFits(plan)
    ensures plan.changed <==> exists e <- plan.diff :: e.kind != DiffUnchanged
  {
    OneEntryEach(plan.diff, d, plan.config);
    CollisionsApproved(printable, plan, d);
    DesiredIsThere(d, plan.config);
    KeyIsThere(plan);
    EntriesShow(printable, plan, d);
    hide ValidDesired, ValidEntry, Shape, Approved, HasDesired, KeyFits, ShowsFinal, ShowsChange, CollisionsConverged, DesiredMatchesConfig, ValidKeyPlan,
         DiffMatchesPlan, Asked, DistinctEntries, SelectedModelsPresent, IsFresh, PlanIsFresh;
  }

  lemma OneEntryEach(entries: seq<DiffEntry>, d: Desired, c: Config)
    requires DistinctEntries(entries) && DiffMatchesPlan(entries, d, c)
    ensures forall target, name :: Asked(d, target, name) <==> exists e <- entries :: (e.target, e.name) == (target, name)
    ensures forall e <- entries, e' <- entries :: (e.target, e.name) == (e'.target, e'.name) ==> e == e'
  {
    AllAsked(entries, d, c);
    hide DiffMatchesPlan;
    forall target, name
      ensures Asked(d, target, name) <==> exists e <- entries :: (e.target, e.name) == (target, name)
    {
      AskedIs(d, target, name);
    }
    forall e <- entries, e' <- entries | (e.target, e.name) == (e'.target, e'.name)
      ensures e == e'
    {
      var i :| 0 <= i < |entries| && entries[i] == e;
      var j :| 0 <= j < |entries| && entries[j] == e';
    }
  }

  lemma KeyIsThere(plan: Plan)
    requires ValidKeyPlan(plan, plan.diff)
    ensures KeyFits(plan)
  {
  }

  lemma EntriesShow(printable: char -> bool, plan: Plan, d: Desired)
    requires ValidFinal(printable, plan, d)
    ensures forall e <- plan.diff, f <- e.fields :: ShowsFinal(plan.config, e, f)
    ensures forall e <- plan.diff :: ShowsChange(e, IsFresh(plan, d), plan.config.server)
    ensures IsFresh(plan, d) ==>
              plan.config.runtimeRoot == d.newRuntimeRoot && |plan.config.providers| == |d.providers| && |plan.config.models| == |d.models|
  {
    hide ValidDesired, CollisionsConverged, DesiredMatchesConfig, ValidKeyPlan, Shape, ShowsFinal, ShowsChange;
    FreshIs(plan, d);
    forall e <- plan.diff
      ensures (forall f <- e.fields :: ShowsFinal(plan.config, e, f)) && ShowsChange(e, IsFresh(plan, d), plan.config.server)
    {
      assert ValidEntry(printable, e);
      AfterIsFinal(plan.config, e);
      ShapeShows(e, IsFresh(plan, d), plan.config.server);
    }
  }
}
