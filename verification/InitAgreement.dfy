/** The planner's results pass the final check; what planning does to a configuration; planning again. */
module InitAgreement {
  import opened InitChecker
  import opened InitMerge
  import opened InitPlan
  import opened Options

  // ---- what the entries of a merge look like ----

  lemma {:induction false} JoinSafe(printable: char -> bool, items: seq<string>)
    requires PrintsAscii(printable) && forall s <- items :: SafeText(printable, s)
    ensures SafeOrEmpty(printable, Join(items))
  {
    if |items| > 1 {
      JoinSafe(printable, items[1..]);
      var joined := Join(items);
      assert joined == items[0] + "," + Join(items[1..]);
      forall c <- joined
        ensures printable(c)
      {
        assert items[0] in items;
        assert c in items[0] || c == ',' || c in Join(items[1..]);
      }
    }
  }

  /** At most one field each, under different names. */
  lemma FieldsApart(a: seq<DiffField>, b: seq<DiffField>, c: seq<DiffField>, d: seq<DiffField>,
                    na: string, nb: string, nc: string, nd: string)
    requires |a| <= 1 && |b| <= 1 && |c| <= 1 && |d| <= 1
    requires (forall f <- a :: f.name == na) && (forall f <- b :: f.name == nb)
    requires (forall f <- c :: f.name == nc) && (forall f <- d :: f.name == nd)
    requires na != nb && na != nc && na != nd && nb != nc && nb != nd && nc != nd
    ensures DistinctFields(a + b + c + d)
    ensures forall f <- a + b + c + d :: f in a || f in b || f in c || f in d
  {
  }

  lemma ChangedValid(printable: char -> bool, target: DiffTarget, name: string, before: string, after: string, present: bool)
    requires name in FieldOrder(target) && SafeOrEmpty(printable, before) && SafeOrEmpty(printable, after)
    requires target.DiffGatewayAuth? ==> name != "mode"
    ensures forall f <- Changed(name, before, after, present) :: ValidField(printable, target, f)
  {
  }

  lemma SafeProviderFields(printable: char -> bool, before: Provider, after: Provider, present: bool)
    requires PrintsAscii(printable) && SafeProvider(printable, after)
    requires SafeProvider(printable, before) || (before.executable == before.configHome == "" && before.prefixArgs == before.credentialEnv == [])
    ensures forall f <- ProviderFields(before, after, present) :: ValidField(printable, DiffProvider, f)
    ensures DistinctFields(ProviderFields(before, after, present))
  {
    hide ValidField, SafeOrEmpty, Changed;
    JoinSafe(printable, after.prefixArgs);
    JoinSafe(printable, after.credentialEnv);
    JoinSafe(printable, before.prefixArgs);
    JoinSafe(printable, before.credentialEnv);
    TextIsSafeOrEmpty(printable, before.executable, before.configHome, after.executable, after.configHome);
    ChangedValid(printable, DiffProvider, "executable", before.executable, after.executable, present);
    ChangedValid(printable, DiffProvider, "prefix_args", Join(before.prefixArgs), Join(after.prefixArgs), present);
    ChangedValid(printable, DiffProvider, "config_home", before.configHome, after.configHome, present);
    ChangedValid(printable, DiffProvider, "credential_env", Join(before.credentialEnv), Join(after.credentialEnv), present);
    FieldsApart(Changed("executable", before.executable, after.executable, present),
                Changed("prefix_args", Join(before.prefixArgs), Join(after.prefixArgs), present),
                Changed("config_home", before.configHome, after.configHome, present),
                Changed("credential_env", Join(before.credentialEnv), Join(after.credentialEnv), present),
                "executable", "prefix_args", "config_home", "credential_env");
  }

  lemma TextIsSafeOrEmpty(printable: char -> bool, a: string, b: string, c: string, d: string)
    requires (SafeText(printable, a) || a == "") && (SafeText(printable, b) || b == "")
    requires SafeText(printable, c) && SafeText(printable, d)
    ensures SafeOrEmpty(printable, a) && SafeOrEmpty(printable, b) && SafeOrEmpty(printable, c) && SafeOrEmpty(printable, d)
  {
  }

  lemma ProviderEntryValid(printable: char -> bool, b: Config, d: Desired, p: Patch)
    requires PrintsAscii(printable) && ValidConfig(printable, b) && ValidDesired(printable, d) && p in d.providers
    ensures ValidEntry(printable, ProviderEntry(b.providers, p))
  {
    var before := ProviderAt(b.providers, p.name);
    assert SafePatch(printable, p);
    var u := Updated(ProviderAt(map[], p.name), p);
    assert SafeProvider(printable, u) && SafeProvider(printable, Updated(before, p));
    SafeProviderFields(printable, before, Updated(before, p), p.name in b.providers);
  }

  lemma GatewayEntryValid(printable: char -> bool, b: Config, d: Desired)
    requires PrintsAscii(printable) && ValidConfig(printable, b) && ValidDesired(printable, d) && d.gateway.isSet
    ensures ValidEntry(printable, GatewayEntry(b.server, AfterGateway(b.server, d.gateway)))
  {
    GatewayFieldsValid(printable, b.server, AfterGateway(b.server, d.gateway));
  }

  lemma ModeValid(printable: char -> bool, before: Server, after: Server)
    requires PrintsAscii(printable)
    ensures ValidField(printable, DiffGatewayAuth, DiffField("mode", GatewayMode(before), GatewayMode(after)))
  {
    assert SafeText(printable, "file") && SafeText(printable, "environment") && SafeText(printable, "none");
  }

  lemma GatewayFieldsValid(printable: char -> bool, before: Server, after: Server)
    requires PrintsAscii(printable) && SafeServer(printable, before) && SafeServer(printable, after)
    ensures ValidEntry(printable, GatewayEntry(before, after))
  {
    hide ValidField, Changed, GatewayMode;
    ModeValid(printable, before, after);
    ChangedValid(printable, DiffGatewayAuth, "key_file", before.apiKeyFile, after.apiKeyFile, true);
    ChangedValid(printable, DiffGatewayAuth, "key_env", before.apiKeyEnv, after.apiKeyEnv, true);
    FieldsApart([DiffField("mode", GatewayMode(before), GatewayMode(after))],
                Changed("key_file", before.apiKeyFile, after.apiKeyFile, true),
                Changed("key_env", before.apiKeyEnv, after.apiKeyEnv, true), [], "mode", "key_file", "key_env", "none");
    var fields := GatewayEntry(before, after).fields;
    assert fields + [] == fields;
  }

  lemma ModelEntryValid(printable: char -> bool, b: Config, d: Desired, m: Mapping)
    requires PrintsAscii(printable) && ValidConfig(printable, b) && ValidDesired(printable, d) && m in d.models
    ensures ValidEntry(printable, ModelEntry(b.models, m))
  {
    assert SafeModel(printable, NewModel(m));
    AliasIsSafe(printable, m.id);
    var found := FindModel(b.models, m.id);
    if found.Some? {
      assert SafeModel(printable, found.value);
    }
    KnownIsSafe(printable, m.provider);
    if found.Some? {
      KnownIsSafe(printable, found.value.provider);
    }
  }

  lemma KnownIsSafe(printable: char -> bool, name: string)
    requires PrintsAscii(printable) && KnownProvider(name)
    ensures SafeText(printable, name)
  {
  }

  /** What an entry of a merged diff is. */
  lemma MergedEntryIs(b: Config, d: Desired, e: DiffEntry) returns (p: Option<Patch>, m: Option<Mapping>)
    requires e in MergedDiff(b, d)
    ensures p.Some? ==> p.value in d.providers && e == ProviderEntry(b.providers, p.value)
    ensures p.None? && m.Some? ==> m.value in d.models && e == ModelEntry(b.models, m.value)
    ensures p.None? && m.None? ==> d.gateway.isSet && e == GatewayEntry(b.server, AfterGateway(b.server, d.gateway))
  {
    p, m := None, None;
    var providers, gateway, models := ProviderEntries(b.providers, d.providers), GatewayEntries(b.server, d.gateway), ModelEntries(b.models, d.models);
    if e in providers {
      var k :| 0 <= k < |providers| && providers[k] == e;
      p := Some(d.providers[k]);
    } else if e in models {
      var k :| 0 <= k < |models| && models[k] == e;
      m := Some(d.models[k]);
    } else {
      assert e in gateway;
    }
  }

  lemma MergedEntriesValid(printable: char -> bool, b: Config, d: Desired)
    requires PrintsAscii(printable) && ValidConfig(printable, b) && ValidDesired(printable, d)
    ensures ValidEntries(printable, MergedDiff(b, d))
  {
    hide ValidEntry, MergedDiff;
    forall e <- MergedDiff(b, d)
      ensures ValidEntry(printable, e)
    {
      var p, m := MergedEntryIs(b, d, e);
      if p.Some? {
        ProviderEntryValid(printable, b, d, p.value);
      } else if m.Some? {
        ModelEntryValid(printable, b, d, m.value);
      } else {
        GatewayEntryValid(printable, b, d);
      }
    }
    MergedEntriesDistinct(b, d);
  }

  lemma MergedEntriesDistinct(b: Config, d: Desired)
    requires DistinctPatches(d.providers) && DistinctMappings(d.models)
    ensures DistinctEntries(MergedDiff(b, d))
  {
    var providers, gateway, models := ProviderEntries(b.providers, d.providers), GatewayEntries(b.server, d.gateway), ModelEntries(b.models, d.models);
    var diff := providers + gateway + models;
    assert forall k | 0 <= k < |providers| :: providers[k].target.DiffProvider? && providers[k].name == d.providers[k].name;
    assert forall k | 0 <= k < |models| :: models[k].target.DiffModel? && models[k].name == d.models[k].id;
    assert |gateway| <= 1 && forall e <- gateway :: e.target.DiffGatewayAuth?;
    hide ProviderEntry, ModelEntry, GatewayEntries, ProviderEntries, ModelEntries;
    forall i, j | 0 <= i < j < |diff|
      ensures diff[i].target != diff[j].target || diff[i].name != diff[j].name
    {
      EntryAt(providers, gateway, models, i);
      EntryAt(providers, gateway, models, j);
    }
  }

  lemma EntryAt(providers: seq<DiffEntry>, gateway: seq<DiffEntry>, models: seq<DiffEntry>, i: nat)
    requires i < |providers| + |gateway| + |models|
    ensures (providers + gateway + models)[i] == if i < |providers| then providers[i]
                                                  else if i < |providers| + |gateway| then gateway[i - |providers|]
                                                  else models[i - |providers| - |gateway|]
  {
  }

  // ---- the planned configuration has the desired values ----

  /** With validated lists, an unchanged entry means the provider already has the patched values. */
  lemma UnchangedMeansEqual(before: Provider, patch: Patch)
    requires PlainLists(before.prefixArgs, before.credentialEnv) && PlainLists(patch.prefixArgs, patch.credentialEnv)
    requires ProviderFields(before, Updated(before, patch), true) == []
    ensures Updated(before, patch) == before
  {
    JoinInjective(before.credentialEnv, patch.credentialEnv);
    ShortJoinInjective(before.prefixArgs, patch.prefixArgs);
  }

  /** Without the validation of lists, planning can overlook a change. */
  lemma UnvalidatedListsOverlooked()
    ensures exists before: Provider, patch: Patch ::
              ProviderFields(before, Updated(before, patch), true) == [] && Updated(before, patch) != before
  {
    var before := Provider("/x", [], "/h", ["a,b"], DEFAULT_TUNING);
    var patch := Patch("claude", "/x", [], "/h", ["a", "b"]);
    assert Join(["a", "b"]) == "a" + "," + Join(["a", "b"][1..]) && ["a", "b"][1..] == ["b"];
    assert Join(["a", "b"]) == "a,b" == Join(["a,b"]);
    assert ProviderFields(before, Updated(before, patch), true) == [];
    assert before.credentialEnv != patch.credentialEnv;
  }

  lemma PatchedHasValues(printable: char -> bool, b: Config, after: map<string, Provider>, d: Desired, p: Patch)
    requires ValidConfig(printable, b) && ValidDesired(printable, d) && p in d.providers
    requires Patched(b.providers, after, d.providers)
    ensures p.name in after && after[p.name] == Updated(ProviderAt(b.providers, p.name), p)
    ensures Updated(after[p.name], p) == after[p.name]
  {
    assert p.name in PatchNames(d.providers);
    assert SafePatch(printable, p);
    assert after[p.name] == AfterPatch(b.providers, p);
    if ProviderEntry(b.providers, p).kind.DiffUnchanged? {
      UnchangedMeansEqual(b.providers[p.name], p);
    }
  }

  lemma {:induction false} AfterMappingAt(m: Model, mappings: seq<Mapping>, k: nat)
    requires DistinctMappings(mappings) && k < |mappings| && mappings[k].id == m.id
    ensures AfterMapping(m, mappings) == Mapped(m, mappings[k])
  {
    if k < |mappings| - 1 {
      AfterMappingAt(m, mappings[..|mappings| - 1], k);
    }
  }

  lemma {:induction false} AdditionsHave(models: seq<Model>, mappings: seq<Mapping>, k: nat)
    requires k < |mappings| && FindModel(models, mappings[k].id).None?
    ensures NewModel(mappings[k]) in Additions(models, mappings)
  {
    if k < |mappings| - 1 {
      AdditionsHave(models, mappings[..|mappings| - 1], k);
    }
  }

  lemma {:induction false} AdditionsDistinct(models: seq<Model>, mappings: seq<Mapping>)
    requires DistinctMappings(mappings)
    ensures DistinctModels(Additions(models, mappings))
  {
    if mappings != [] {
      AdditionsDistinct(models, mappings[..|mappings| - 1]);
      AdditionsAreNew(models, mappings[..|mappings| - 1]);
      NewAlias(mappings, |mappings| - 1);
    }
  }

  lemma AfterModelsDistinct(models: seq<Model>, mappings: seq<Mapping>)
    requires DistinctModels(models) && DistinctMappings(mappings)
    ensures DistinctModels(AfterModels(models, mappings))
  {
    AdditionsDistinct(models, mappings);
    AdditionsAreNew(models, mappings);
    var after, added := AfterModels(models, mappings), Additions(models, mappings);
    forall i, j | 0 <= i < j < |after|
      ensures after[i].id != after[j].id
    {
      if i < |models| {
        AfterMappingKeeps(models[i], mappings);
      }
      if j < |models| {
        AfterMappingKeeps(models[j], mappings);
      } else {
        assert added[j - |models|] in added;
      }
    }
  }

  /** Every mapping is the model its alias resolves to afterwards. */
  lemma MappingHolds(models: seq<Model>, mappings: seq<Mapping>, k: nat)
    requires DistinctModels(models) && DistinctMappings(mappings) && k < |mappings|
    ensures var found := FindModel(AfterModels(models, mappings), mappings[k].id);
            && found.Some? && Mapped(found.value, mappings[k]) == found.value
            && found.value == match FindModel(models, mappings[k].id)
                              case Some(m) => Mapped(m, mappings[k])
                              case None => NewModel(mappings[k])
  {
    hide DistinctModels, DistinctMappings, AfterMapping, Additions, FindModel;
    var after, mapping := AfterModels(models, mappings), mappings[k];
    AfterModelsDistinct(models, mappings);
    match FindModel(models, mapping.id) {
      case Some(m) =>
        var i :| 0 <= i < |models| && models[i] == m;
        AfterMappingAt(m, mappings, k);
        AfterMappingKeeps(m, mappings);
        FindsAt(after, i);
      case None =>
        AdditionsHave(models, mappings, k);
        var added := Additions(models, mappings);
        var i :| 0 <= i < |added| && added[i] == NewModel(mapping);
        assert after[|models| + i] == added[i];
        FindsAt(after, |models| + i);
    }
  }

  lemma MergedMatchesDesired(printable: char -> bool, b: Config, c: Config, d: Desired)
    requires ValidConfig(printable, b) && ValidDesired(printable, d) && MergedConfig(b, c, d)
    ensures DesiredMatchesConfig(d, c)
  {
    hide Patched, AfterModels, ValidConfig, ValidDesired;
    forall p <- d.providers
      ensures p.name in c.providers && Updated(c.providers[p.name], p) == c.providers[p.name]
    {
      PatchedHasValues(printable, b, c.providers, d, p);
    }
    forall m <- d.models
      ensures FindModel(c.models, m.id).Some? && Mapped(FindModel(c.models, m.id).value, m) == FindModel(c.models, m.id).value
    {
      var k :| 0 <= k < |d.models| && d.models[k] == m;
      ValidIsDistinct(printable, b, d);
      MappingHolds(b.models, d.models, k);
    }
  }

  lemma ValidIsDistinct(printable: char -> bool, b: Config, d: Desired)
    requires ValidConfig(printable, b) && ValidDesired(printable, d)
    ensures DistinctModels(b.models) && DistinctMappings(d.models) && DistinctPatches(d.providers)
  {
  }

  // ---- every entry matches the final configuration and has its shape ----

  /** What a provider field may be. */
  lemma ProviderFieldIs(before: Provider, after: Provider, present: bool, f: DiffField)
    requires f in ProviderFields(before, after, present)
    ensures
      || f == DiffField("executable", before.executable, after.executable)
      || f == DiffField("prefix_args", Join(before.prefixArgs), Join(after.prefixArgs))
      || f == DiffField("config_home", before.configHome, after.configHome)
      || f == DiffField("credential_env", Join(before.credentialEnv), Join(after.credentialEnv))
    ensures present ==> f.before != f.after
  {
  }

  lemma ProviderEntryFits(b: Config, c: Config, p: Patch)
    requires p.name in c.providers && c.providers[p.name] == Updated(ProviderAt(b.providers, p.name), p)
    ensures AfterMatchesConfig(ProviderEntry(b.providers, p), c)
    ensures ProviderShape(ProviderEntry(b.providers, p), false)
  {
    hide Join;
    var before := ProviderAt(b.providers, p.name);
    var present := p.name in b.providers;
    var e := ProviderEntry(b.providers, p);
    forall f <- e.fields
      ensures FinalValue(e, f.name, c) == Some(f.after) && (present ==> f.before != f.after)
      ensures f.name in ["executable", "prefix_args", "config_home", "credential_env"]
      ensures !present ==> f.before == ""
    {
      ProviderFieldIs(before, Updated(before, p), present, f);
      EmptyJoin();
    }
  }

  lemma EmptyJoin()
    ensures Join([]) == ""
  {
  }

  lemma ModelEntryFits(b: Config, c: Config, m: Mapping)
    requires FindModel(c.models, m.id) == Some(match FindModel(b.models, m.id)
                                               case Some(was) => Mapped(was, m)
                                               case None => NewModel(m))
    ensures AfterMatchesConfig(ModelEntry(b.models, m), c)
    ensures ModelShape(ModelEntry(b.models, m), false)
  {
  }

  lemma GatewayEntryFits(printable: char -> bool, b: Config, c: Config, d: Desired)
    requires SafeServer(printable, b.server) && ValidGateway(printable, d.gateway) && d.gateway.isSet
    requires c.server == AfterGateway(b.server, d.gateway)
    ensures AfterMatchesConfig(GatewayEntry(b.server, c.server), c)
    ensures GatewayShape(GatewayEntry(b.server, c.server), false, c.server)
  {
    var before, after := b.server, c.server;
    var e := GatewayEntry(before, after);
    var file, env := Changed("key_file", before.apiKeyFile, after.apiKeyFile, true), Changed("key_env", before.apiKeyEnv, after.apiKeyEnv, true);
    assert e.fields[0] == DiffField("mode", GatewayMode(before), GatewayMode(after)) && e.fields[0] in e.fields;
    forall f <- e.fields
      ensures f == e.fields[0] || f in file || f in env
    {
    }
    if before != after {
      if before.apiKeyFile != after.apiKeyFile {
        assert e.fields[1] == DiffField("key_file", before.apiKeyFile, after.apiKeyFile) && e.fields[1] in e.fields;
      }
      if before.apiKeyEnv != after.apiKeyEnv {
        var last := e.fields[|e.fields| - 1];
        assert last == DiffField("key_env", before.apiKeyEnv, after.apiKeyEnv) && last in e.fields;
      }
    }
  }

  lemma ValidParts(printable: char -> bool, b: Config, d: Desired)
    requires ValidConfig(printable, b) && ValidDesired(printable, d)
    ensures SafeServer(printable, b.server) && ValidGateway(printable, d.gateway)
  {
  }

  /** Each entry of a merged diff was expected, shows the final values, and has the shape of its kind. */
  lemma MergedEntryFits(printable: char -> bool, b: Config, c: Config, d: Desired, e: DiffEntry)
    requires ValidConfig(printable, b) && ValidDesired(printable, d) && MergedConfig(b, c, d) && e in MergedDiff(b, d)
    ensures ExpectedEntry(e, d) && AfterMatchesConfig(e, c) && Shape(e, false, c.server)
    ensures !(e.target.DiffGatewayAuth? && e.kind.DiffAdded?)
  {
    hide AfterMatchesConfig, ProviderShape, ModelShape, GatewayShape, Patched, AfterModels, ValidConfig, ValidDesired, MergedDiff,
         ProviderFields, ModelFields;
    ValidIsDistinct(printable, b, d);
    ValidParts(printable, b, d);
    var p, m := MergedEntryIs(b, d, e);
    if p.Some? {
      PatchedHasValues(printable, b, c.providers, d, p.value);
      ProviderEntryFits(b, c, p.value);
    } else if m.Some? {
      var k :| 0 <= k < |d.models| && d.models[k] == m.value;
      MappingHolds(b.models, d.models, k);
      ModelEntryFits(b, c, m.value);
    } else {
      GatewayEntryFits(printable, b, c, d);
    }
  }

  // ---- collisions ----

  lemma {:induction false} ReplacedDistinct(entries: seq<DiffEntry>)
    requires DistinctEntries(entries)
    ensures DistinctCollisions(Replaced(entries))
  {
    if entries != [] {
      var rest, last := entries[..|entries| - 1], entries[|entries| - 1];
      ReplacedDistinct(rest);
      ReplacedExactly(rest);
      forall c <- Replaced(rest)
        ensures c.target != last.target || c.name != last.name
      {
        var e :| e in rest && c == Collision(e.target, e.name, e.fields);
      }
    }
  }

  lemma NothingReplaced(entries: seq<DiffEntry>)
    requires !Changes(entries)
    ensures Replaced(entries) == []
  {
  }

  lemma MergedCollisionsConverge(printable: char -> bool, b: Config, d: Desired)
    requires ValidEntries(printable, MergedDiff(b, d)) && Authorized(MergedCollisions(b, d), d)
    ensures CollisionsConverged(printable, MergedDiff(b, d), MergedCollisions(b, d), d)
  {
    var providers, gateway, models := ProviderEntries(b.providers, d.providers), GatewayEntries(b.server, d.gateway), ModelEntries(b.models, d.models);
    EntryTargets(b, d);
    hide ProviderEntries, ModelEntries, GatewayEntries;
    PartsConverge(printable, providers, gateway, models, d);
  }

  lemma EntryTargets(b: Config, d: Desired)
    ensures forall e <- ProviderEntries(b.providers, d.providers) :: e.target.DiffProvider?
    ensures forall e <- ModelEntries(b.models, d.models) :: e.target.DiffModel?
    ensures forall e <- GatewayEntries(b.server, d.gateway) :: e.target.DiffGatewayAuth?
  {
  }

  lemma PartsConverge(printable: char -> bool, providers: seq<DiffEntry>, gateway: seq<DiffEntry>, models: seq<DiffEntry>, d: Desired)
    requires (forall e <- providers :: e.target.DiffProvider?) && (forall e <- models :: e.target.DiffModel?)
    requires forall e <- gateway :: e.target.DiffGatewayAuth?
    requires ValidEntries(printable, providers + gateway + models) && Authorized(Replaced(providers) + Replaced(models), d)
    ensures CollisionsConverged(printable, providers + gateway + models, Replaced(providers) + Replaced(models), d)
  {
    var diff, first, second := providers + gateway + models, Replaced(providers), Replaced(models);
    var collisions := first + second;
    PartsDistinct(providers, gateway, models);
    ReplacedDistinct(providers);
    ReplacedDistinct(models);
    ReplacedExactly(providers);
    ReplacedExactly(models);
    hide Replaced, DistinctEntries, ValidEntry, DistinctCollisions, Ordered;
    assert (forall c <- first :: c.target.DiffProvider?) && (forall c <- second :: c.target.DiffModel?);
    CollisionsApart(first, second);
    forall c <- collisions
      ensures ValidCollision(printable, c, diff)
    {
      var e :| e in providers + models && e.kind.DiffReplaced? && c == Collision(e.target, e.name, e.fields);
      assert e in diff && ValidEntry(printable, e);
      assert DiffEntry(e.kind, c.target, c.name, c.fields) == e;
    }
    forall e <- diff | e.kind.DiffReplaced? && !e.target.DiffGatewayAuth?
      ensures exists c <- collisions :: c.target == e.target && c.name == e.name
    {
      assert Collision(e.target, e.name, e.fields) in collisions;
    }
  }

  lemma CollisionsApart(a: seq<Collision>, b: seq<Collision>)
    requires DistinctCollisions(a) && DistinctCollisions(b)
    requires (forall c <- a :: c.target.DiffProvider?) && (forall c <- b :: c.target.DiffModel?)
    ensures DistinctCollisions(a + b)
  {
  }

  lemma PartsDistinct(a: seq<DiffEntry>, b: seq<DiffEntry>, c: seq<DiffEntry>)
    requires DistinctEntries(a + b + c)
    ensures DistinctEntries(a) && DistinctEntries(c)
  {
    var all := a + b + c;
    assert a == all[..|a|] && c == all[|a| + |b|..];
  }

  // ---- the theorem for merges ----

  lemma PartsUnchanged(a: seq<DiffEntry>, b: seq<DiffEntry>, c: seq<DiffEntry>)
    requires !Changes(a + b + c)
    ensures !Changes(a) && !Changes(b) && !Changes(c)
  {
  }

  /** An unchanged plan keeps the configuration as it was. */
  lemma UnchangedKeepsConfig(printable: char -> bool, b: Config, d: Desired, plan: Plan)
    requires ValidConfig(printable, b) && ValidDesired(printable, d) && Merged(b, d, plan) && !plan.changed
    ensures plan.config == b && plan.collisions == []
  {
    ValidIsDistinct(printable, b, d);
    hide ValidConfig, ValidDesired, Patched, AfterModels, Changes, KeyPlanned, ProviderEntries, ModelEntries, Replaced;
    PartsUnchanged(ProviderEntries(b.providers, d.providers), GatewayEntries(b.server, d.gateway), ModelEntries(b.models, d.models));
    NothingReplaced(ProviderEntries(b.providers, d.providers));
    NothingReplaced(ModelEntries(b.models, d.models));
    NothingPatchedAnew(b.providers, plan.config.providers, d.providers);
    NothingMappedAnew(b.models, d.models);
    GatewayUnchanged(b.server, d.gateway);
  }

  lemma GatewayUnchanged(server: Server, patch: GatewayPatch)
    requires !Changes(GatewayEntries(server, patch))
    ensures AfterGateway(server, patch) == server
  {
  }

  lemma NothingPatchedAnew(before: map<string, Provider>, after: map<string, Provider>, patches: seq<Patch>)
    requires Patched(before, after, patches) && !Changes(ProviderEntries(before, patches))
    ensures after == before
  {
    hide ProviderFields, Updated;
    forall p <- patches
      ensures p.name in before && AfterPatch(before, p) == before[p.name]
    {
      var k :| 0 <= k < |patches| && patches[k] == p;
      assert ProviderEntries(before, patches)[k] in ProviderEntries(before, patches);
    }
    SameKeysAndValues(before, after, patches);
  }

  lemma SameKeysAndValues(before: map<string, Provider>, after: map<string, Provider>, patches: seq<Patch>)
    requires Patched(before, after, patches)
    requires forall p <- patches :: p.name in before && AfterPatch(before, p) == before[p.name]
    ensures after == before
  {
  }

  lemma {:induction false} NothingMappedAnew(models: seq<Model>, mappings: seq<Mapping>)
    requires DistinctModels(models) && DistinctMappings(mappings) && !Changes(ModelEntries(models, mappings))
    ensures AfterModels(models, mappings) == models
  {
    if mappings == [] {
      NothingMapped(models);
    } else {
      var rest, last := mappings[..|mappings| - 1], mappings[|mappings| - 1];
      assert mappings == rest + [last];
      ModelEntriesGrow(models, rest, last);
      PartsUnchanged(ModelEntries(models, rest), [ModelEntry(models, last)], []);
      assert ModelEntries(models, rest) + [ModelEntry(models, last)] + [] == ModelEntries(models, mappings);
      NothingMappedAnew(models, rest);
      NewAlias(mappings, |mappings| - 1);
      LastUnchanged(models, rest, last);
    }
  }

  lemma LastUnchanged(models: seq<Model>, rest: seq<Mapping>, last: Mapping)
    requires DistinctModels(models) && last.id !in MappingIds(rest) && AfterModels(models, rest) == models
    requires !Changes([ModelEntry(models, last)])
    ensures AfterModels(models, rest + [last]) == models
  {
  }

  lemma MergedKeyPlanValid(b: Config, d: Desired, plan: Plan)
    requires Merged(b, d, plan) && (d.gateway.isSet ==> d.gateway.apiKeyEnv == "" || d.gateway.apiKeyFile == "")
    ensures ValidKeyPlan(plan, plan.diff)
  {
    hide MergedDiff, MergedCollisions, Changes, GatewayEntries, Patched, AfterModels;
    var keyPath := plan.config.server.apiKeyFile;
    var after := AfterGateway(b.server, d.gateway);
    if keyPath != "" && d.gateway.isSet && b.server.apiKeyFile != keyPath {
      NewKeyPathShown(b, d, after);
    } else if keyPath != "" {
      KeptKeyPathNotShown(b, d, keyPath);
    }
  }

  lemma NewKeyPathShown(b: Config, d: Desired, after: Server)
    requires d.gateway.isSet && after == AfterGateway(b.server, d.gateway) && b.server.apiKeyFile != after.apiKeyFile
    ensures exists e <- MergedDiff(b, d) :: e.target.DiffGatewayAuth? && !e.kind.DiffUnchanged?
                                            && exists f <- e.fields :: f.name == "key_file" && f.after == after.apiKeyFile
  {
    var e := GatewayEntry(b.server, after);
    assert e in GatewayEntries(b.server, d.gateway) && e in MergedDiff(b, d);
    assert e.fields[1] == DiffField("key_file", b.server.apiKeyFile, after.apiKeyFile) && e.fields[1] in e.fields;
  }

  lemma KeptKeyPathNotShown(b: Config, d: Desired, keyPath: string)
    requires d.gateway.isSet ==> b.server.apiKeyFile == keyPath && AfterGateway(b.server, d.gateway).apiKeyFile == keyPath
    ensures forall e <- MergedDiff(b, d) | e.target.DiffGatewayAuth? ::
              forall f <- e.fields :: !(f.name == "key_file" && f.after == keyPath)
  {
  }

  /**
   The check accepts a merge the planner returned exactly when the selected providers have
   models; the planner itself asks that of every plan that changes something.
   */
  lemma MergedPlanAccepted(printable: char -> bool, b: Config, d: Desired, plan: Plan)
    requires PrintsAscii(printable) && ValidConfig(printable, b) && ValidDesired(printable, d)
    requires Accepted(Some(b), d, plan)
    ensures ValidFinal(printable, plan, d) <==> plan.changed || SelectedModelsPresent(b.models, d.selected)
  {
    hide ValidConfig, ValidDesired, MergedConfig, MergedDiff, MergedCollisions, Shape, AfterMatchesConfig, ExpectedEntry,
         ValidEntries, CollisionsConverged, DesiredMatchesConfig, ValidKeyPlan, KeyPlanned, Changes, Authorized;
    MergedEntriesValid(printable, b, d);
    if !plan.changed {
      UnchangedKeepsConfig(printable, b, d, plan);
      NoCollisionAuthorized(d);
    }
    MergedCollisionsConverge(printable, b, d);
    MergedMatchesDesired(printable, b, plan.config, d);
    GatewayExclusive(printable, d);
    MergedKeyPlanValid(b, d, plan);
    MergedDiffMatches(printable, b, plan.config, d);
  }

  lemma NoCollisionAuthorized(d: Desired)
    ensures Authorized([], d)
  {
  }

  lemma GatewayExclusive(printable: char -> bool, d: Desired)
    requires ValidDesired(printable, d)
    ensures d.gateway.apiKeyEnv == "" || d.gateway.apiKeyFile == ""
  {
  }

  lemma MergedDiffMatches(printable: char -> bool, b: Config, c: Config, d: Desired)
    requires ValidConfig(printable, b) && ValidDesired(printable, d) && MergedConfig(b, c, d)
    ensures MergedDiff(b, d) != [] && DiffMatchesPlan(MergedDiff(b, d), d, c)
    ensures !PlanIsFresh(MergedDiff(b, d), d, c)
    ensures forall e <- MergedDiff(b, d) :: Shape(e, false, c.server)
  {
    forall e <- MergedDiff(b, d)
      ensures ExpectedEntry(e, d) && AfterMatchesConfig(e, c) && Shape(e, false, c.server)
      ensures !(e.target.DiffGatewayAuth? && e.kind.DiffAdded?)
    {
      MergedEntryFits(printable, b, c, d, e);
    }
  }

  const MODELLESS := Config(Server("", "", 0), "/r",
                            map["codex" := Provider("/c", [], "/h", [], DEFAULT_TUNING),
                                "claude" := Provider("/d", [], "/i", [], DEFAULT_TUNING)],
                            [Model("a", "claude", "m", 0)])

  const REPEATED := Desired("/r", GatewayPatch(false, "", "", false), ["codex"], [Patch("codex", "/c", [], "/h", [])], [], {}, {})

  lemma ShortTextsAreSafe(printable: char -> bool)
    requires PrintsAscii(printable)
    ensures SafeText(printable, "/c") && SafeText(printable, "/h") && SafeText(printable, "/d") && SafeText(printable, "/i")
    ensures SafeText(printable, "/r") && SafeText(printable, "m")
  {
  }

  lemma ModellessIsValid(printable: char -> bool)
    requires PrintsAscii(printable)
    ensures ValidConfig(printable, MODELLESS)
  {
  }

  lemma RepeatedIsValid(printable: char -> bool)
    requires PrintsAscii(printable)
    ensures ValidDesired(printable, REPEATED) && !SelectedModelsPresent(MODELLESS.models, REPEATED.selected)
  {
    ShortTextsAreSafe(printable);
    hide SafeText;
    assert SafePatch(printable, REPEATED.providers[0]);
    assert "codex" in REPEATED.selected;
  }

  lemma RepeatedChangesNothing()
    ensures MergedDiff(MODELLESS, REPEATED) == [DiffEntry(DiffUnchanged, DiffProvider, "codex", [])]
    ensures MergedCollisions(MODELLESS, REPEATED) == [] && MergedConfig(MODELLESS, MODELLESS, REPEATED)
  {
    var patch := REPEATED.providers[0];
    var codex := MODELLESS.providers["codex"];
    assert Updated(codex, patch) == codex && ProviderFields(codex, codex, true) == [];
    EntriesGrow(MODELLESS.providers, [], patch);
    assert [] + [patch] == REPEATED.providers;
    NothingPatchedAnewBack(MODELLESS.providers, REPEATED.providers);
    NothingMapped(MODELLESS.models);
    ReplacedGrows([], ProviderEntry(MODELLESS.providers, patch));
  }

  /** A merge the planner returns unchanged although a selected provider has no model; the check refuses it. */
  lemma UnchangedPlanMayBeRefused(printable: char -> bool)
    requires PrintsAscii(printable)
    ensures exists b, d, plan ::
              ValidConfig(printable, b) && ValidDesired(printable, d) && Accepted(Some(b), d, plan) && !ValidFinal(printable, plan, d)
  {
    hide ValidConfig, ValidDesired, MergedConfig, MergedDiff, MergedCollisions;
    ModellessIsValid(printable);
    RepeatedIsValid(printable);
    RepeatedChangesNothing();
    var plan := Plan(MODELLESS, MergedDiff(MODELLESS, REPEATED), [], false, KeyActionNone, "", false);
    assert Accepted(Some(MODELLESS), REPEATED, plan);
    MergedPlanAccepted(printable, MODELLESS, REPEATED, plan);
  }

  lemma NothingPatchedAnewBack(before: map<string, Provider>, patches: seq<Patch>)
    requires forall p <- patches :: p.name in before && AfterPatch(before, p) == before[p.name]
    ensures Patched(before, before, patches)
  {
  }

  // ---- the theorem for fresh plans ----

  lemma {:induction false} NamesCounted(patches: seq<Patch>)
    requires DistinctPatches(patches)
    ensures |PatchNames(patches)| == |patches|
  {
    if patches != [] {
      var rest, last := patches[..|patches| - 1], patches[|patches| - 1];
      NamesCounted(rest);
      NewName(patches, |patches| - 1);
      assert patches == rest + [last] && PatchNames(patches) == PatchNames(rest) + {last.name};
    }
  }

  lemma FreshModelFound(d: Desired, c: Config, m: Mapping)
    requires FreshConfig(d, c) && m in d.models
    ensures FindModel(c.models, m.id) == Some(NewModel(m))
  {
  }

  /** What an entry of a fresh diff is. */
  lemma FreshEntryIs(d: Desired, e: DiffEntry) returns (p: Option<Patch>, m: Option<Mapping>)
    requires e in FreshDiff(d)
    ensures p.Some? ==> p.value in d.providers && e == DiffEntry(DiffAdded, DiffProvider, p.value.name, [])
    ensures p.None? && m.Some? ==> m.value in d.models && e == ModelEntry([], m.value)
    ensures p.None? && m.None? ==> e == FreshDiff(d)[0]
  {
    p, m := None, None;
    var diff := FreshDiff(d);
    var k :| 0 <= k < |diff| && diff[k] == e;
    if 1 <= k <= |d.providers| {
      p := Some(d.providers[k - 1]);
    } else if k > |d.providers| {
      m := Some(d.models[k - 1 - |d.providers|]);
    }
  }

  lemma FreshGatewayFits(printable: char -> bool, d: Desired, c: Config)
    requires PrintsAscii(printable) && ValidGateway(printable, d.gateway) && FreshConfig(d, c) && d.gateway.isSet
    ensures var e := FreshDiff(d)[0];
            && e.target.DiffGatewayAuth? && e.kind.DiffAdded? && e.name == "gateway"
            && ValidEntry(printable, e) && AfterMatchesConfig(e, c) && GatewayShape(e, true, c.server)
            && (c.server.apiKeyFile != "" ==> exists f <- e.fields :: f.name == "key_file" && f.after == c.server.apiKeyFile)
  {
    var server := Server(d.gateway.apiKeyEnv, d.gateway.apiKeyFile, 0);
    FreshGatewayValid(printable, server);
    FreshGatewayShaped(server, c);
    assert GatewayShape(FreshGateway(server), true, c.server);
  }

  lemma FreshGatewayValid(printable: char -> bool, server: Server)
    requires PrintsAscii(printable) && SafeServer(printable, server)
    ensures ValidEntry(printable, FreshGateway(server))
  {
    ModeValid(printable, server, server);
  }

  lemma FreshGatewayShaped(server: Server, c: Config)
    requires c.server.apiKeyFile == server.apiKeyFile && c.server.apiKeyEnv == server.apiKeyEnv
    ensures var e := FreshGateway(server);
            && e.target.DiffGatewayAuth? && e.kind.DiffAdded? && e.name == "gateway"
            && AfterMatchesConfig(e, c) && GatewayShape(e, true, c.server)
            && (server.apiKeyFile != "" ==> exists f <- e.fields :: f.name == "key_file" && f.after == server.apiKeyFile)
  {
  }

  lemma FreshEntryFits(printable: char -> bool, d: Desired, c: Config, e: DiffEntry)
    requires PrintsAscii(printable) && ValidDesired(printable, d) && FreshConfig(d, c) && d.gateway.isSet && e in FreshDiff(d)
    ensures ValidEntry(printable, e) && ExpectedEntry(e, d) && AfterMatchesConfig(e, c) && Shape(e, true, c.server)
  {
    hide GatewayShape, FreshDiff;
    var p, m := FreshEntryIs(d, e);
    if p.Some? {
      assert SafePatch(printable, p.value);
      assert p.value.name in PatchNames(d.providers);
    } else if m.Some? {
      FreshModelFits(printable, d, c, m.value);
    } else {
      FreshGatewayFits(printable, d, c);
    }
  }

  lemma FreshModelFits(printable: char -> bool, d: Desired, c: Config, m: Mapping)
    requires PrintsAscii(printable) && ValidDesired(printable, d) && FreshConfig(d, c) && m in d.models
    ensures var e := ModelEntry([], m); ValidEntry(printable, e) && AfterMatchesConfig(e, c) && ModelShape(e, true)
  {
    FreshModelFound(d, c, m);
    assert SafeModel(printable, NewModel(m));
    AliasIsSafe(printable, m.id);
    KnownIsSafe(printable, m.provider);
  }

  lemma FreshEntriesDistinct(d: Desired)
    requires DistinctPatches(d.providers) && DistinctMappings(d.models)
    ensures DistinctEntries(FreshDiff(d)) && |FreshDiff(d)| == 1 + |d.providers| + |d.models|
  {
  }

  /** The check accepts every fresh plan the planner returns. */
  lemma FreshPlanAccepted(printable: char -> bool, d: Desired, plan: Plan)
    requires PrintsAscii(printable) && ValidDesired(printable, d) && Accepted(None, d, plan)
    ensures ValidFinal(printable, plan, d)
  {
    var c := plan.config;
    forall e <- plan.diff
      ensures ValidEntry(printable, e) && ExpectedEntry(e, d) && AfterMatchesConfig(e, c) && Shape(e, true, c.server)
      ensures e.kind.DiffAdded?
    {
      FreshEntryFits(printable, d, c, e);
      var p, m := FreshEntryIs(d, e);
    }
    FreshEntriesDistinct(d);
    NamesCounted(d.providers);
    FreshGatewayFits(printable, d, c);
    forall m <- d.models
      ensures FindModel(c.models, m.id) == Some(NewModel(m))
    {
      FreshModelFound(d, c, m);
    }
    forall p <- d.providers
      ensures p.name in c.providers && Updated(c.providers[p.name], p) == c.providers[p.name]
    {
      assert p.name in PatchNames(d.providers);
    }
    hide ValidEntry, ExpectedEntry, AfterMatchesConfig, Shape, ValidDesired, DistinctEntries, FreshConfig;
    var gateway := plan.diff[0];
    assert gateway in plan.diff;
    FreshAssembled(printable, d, plan);
  }

  lemma FreshAssembled(printable: char -> bool, d: Desired, plan: Plan)
    requires ValidDesired(printable, d) && Accepted(None, d, plan) && plan.diff != []
    requires forall e <- plan.diff :: ValidEntry(printable, e) && ExpectedEntry(e, d) && AfterMatchesConfig(e, plan.config)
                                      && Shape(e, true, plan.config.server) && e.kind.DiffAdded?
    requires DistinctEntries(plan.diff) && |plan.diff| == 1 + |d.providers| + |d.models| && |PatchNames(d.providers)| == |d.providers|
    requires plan.diff[0].target.DiffGatewayAuth?
    requires plan.config.server.apiKeyFile != "" ==>
               exists f <- plan.diff[0].fields :: f.name == "key_file" && f.after == plan.config.server.apiKeyFile
    requires forall m <- d.models :: FindModel(plan.config.models, m.id) == Some(NewModel(m))
    requires forall p <- d.providers :: p.name in plan.config.providers && Updated(plan.config.providers[p.name], p) == plan.config.providers[p.name]
    ensures ValidFinal(printable, plan, d)
  {
    hide ValidEntry, ExpectedEntry, AfterMatchesConfig, Shape, ValidDesired, DistinctEntries, FreshDiff;
    assert plan.diff[0] in plan.diff;
    assert |plan.config.providers| == |plan.config.providers.Keys|;
    assert PlanIsFresh(plan.diff, d, plan.config);
    assert Changes(plan.diff);
    assert Authorized(plan.collisions, d) && DistinctCollisions(plan.collisions);
    assert ValidKeyPlan(plan, plan.diff);
    assert DesiredMatchesConfig(d, plan.config);
  }

  // ---- what a merge does, and doing it again ----

  /** Managed values become the desired ones; everything else stays, in its place. */
  lemma MergeIsExact(printable: char -> bool, b: Config, c: Config, d: Desired)
    requires ValidConfig(printable, b) && ValidDesired(printable, d) && MergedConfig(b, c, d)
    ensures forall p <- d.providers ::
              p.name in c.providers && c.providers[p.name] == Updated(ProviderAt(b.providers, p.name), p)
    ensures forall name | name !in PatchNames(d.providers) ::
              (name in c.providers <==> name in b.providers) && (name in b.providers ==> c.providers[name] == b.providers[name])
    ensures |b.models| <= |c.models|
    ensures forall i | 0 <= i < |b.models| ::
              && c.models[i].id == b.models[i].id && c.models[i].created == b.models[i].created
              && (b.models[i].id !in MappingIds(d.models) ==> c.models[i] == b.models[i])
    ensures forall m <- c.models[|b.models|..] :: m.id in MappingIds(d.models) && FindModel(b.models, m.id).None? && m.created == 0
    ensures DesiredMatchesConfig(d, c)
    ensures c.server.rest == b.server.rest && (!d.gateway.isSet ==> c.server == b.server)
  {
    MergedMatchesDesired(printable, b, c, d);
    hide ValidConfig, ValidDesired, AfterPatch;
    forall p <- d.providers
      ensures p.name in c.providers && c.providers[p.name] == Updated(ProviderAt(b.providers, p.name), p)
    {
      PatchedHasValues(printable, b, c.providers, d, p);
    }
    forall i | 0 <= i < |b.models|
      ensures c.models[i].id == b.models[i].id && c.models[i].created == b.models[i].created
      ensures b.models[i].id !in MappingIds(d.models) ==> c.models[i] == b.models[i]
    {
      AfterMappingKeeps(b.models[i], d.models);
      if b.models[i].id !in MappingIds(d.models) {
        UnmappedStays(b.models[i], d.models);
      }
    }
    AdditionsAreNew(b.models, d.models);
    assert c.models[|b.models|..] == Additions(b.models, d.models);
  }

  /** A merge of valid inputs is again a valid configuration. */
  lemma MergedStaysValid(printable: char -> bool, b: Config, c: Config, d: Desired)
    requires ValidConfig(printable, b) && ValidDesired(printable, d) && MergedConfig(b, c, d)
    ensures ValidConfig(printable, c)
  {
    MergeIsExact(printable, b, c, d);
    AfterModelsDistinct(b.models, d.models);
    forall name <- c.providers
      ensures KnownProvider(name) && SafeProvider(printable, c.providers[name])
    {
      if name in PatchNames(d.providers) {
        var p :| p in d.providers && p.name == name;
        PatchIsSafe(printable, d, p, ProviderAt(b.providers, name));
      }
    }
    forall m <- c.models
      ensures SafeModel(printable, m)
    {
      var i :| 0 <= i < |c.models| && c.models[i] == m;
      ModelStaysSafe(printable, b, d, i);
    }
    ServerStaysSafe(printable, b.server, d.gateway);
  }

  lemma PatchIsSafe(printable: char -> bool, d: Desired, p: Patch, was: Provider)
    requires ValidDesired(printable, d) && p in d.providers
    ensures KnownProvider(p.name) && SafeProvider(printable, Updated(was, p))
  {
  }

  lemma ServerStaysSafe(printable: char -> bool, s: Server, g: GatewayPatch)
    requires SafeServer(printable, s) && ValidGateway(printable, g)
    ensures SafeServer(printable, AfterGateway(s, g))
  {
  }

  lemma ModelStaysSafe(printable: char -> bool, b: Config, d: Desired, i: nat)
    requires ValidConfig(printable, b) && ValidDesired(printable, d) && i < |AfterModels(b.models, d.models)|
    ensures SafeModel(printable, AfterModels(b.models, d.models)[i])
  {
    hide ValidConfig, ValidDesired;
    if i < |b.models| {
      BeforeIsSafe(printable, b, i);
      MappedIsSafe(printable, d, b.models[i], d.models);
    } else {
      AdditionIsSafe(printable, d, b.models, d.models, i - |b.models|);
    }
  }

  lemma BeforeIsSafe(printable: char -> bool, b: Config, i: nat)
    requires ValidConfig(printable, b) && i < |b.models|
    ensures SafeModel(printable, b.models[i])
  {
  }

  lemma MappingIsSafe(printable: char -> bool, d: Desired, m: Mapping)
    requires ValidDesired(printable, d) && m in d.models
    ensures SafeModel(printable, NewModel(m))
  {
  }

  lemma {:induction false} MappedIsSafe(printable: char -> bool, d: Desired, m: Model, mappings: seq<Mapping>)
    requires ValidDesired(printable, d) && SafeModel(printable, m) && forall k <- mappings :: k in d.models
    ensures SafeModel(printable, AfterMapping(m, mappings))
  {
    hide ValidDesired;
    if mappings != [] {
      MappingIsSafe(printable, d, mappings[|mappings| - 1]);
      MappedIsSafe(printable, d, m, mappings[..|mappings| - 1]);
    }
  }

  lemma {:induction false} AdditionIsSafe(printable: char -> bool, d: Desired, models: seq<Model>, mappings: seq<Mapping>, i: nat)
    requires ValidDesired(printable, d) && (forall k <- mappings :: k in d.models) && i < |Additions(models, mappings)|
    ensures SafeModel(printable, Additions(models, mappings)[i])
  {
    hide ValidDesired;
    if i < |Additions(models, mappings[..|mappings| - 1])| {
      AdditionIsSafe(printable, d, models, mappings[..|mappings| - 1], i);
    } else {
      MappingIsSafe(printable, d, mappings[|mappings| - 1]);
    }
  }

  /** Planning the same desired state on its own result changes nothing and collides with nothing. */
  lemma PlanningIsIdempotent(printable: char -> bool, b: Config, c: Config, d: Desired, again: Plan)
    requires ValidConfig(printable, b) && ValidDesired(printable, d) && MergedConfig(b, c, d) && Merged(c, d, again)
    ensures !again.changed && again.config == c && again.collisions == []
  {
    hide ValidConfig, ValidDesired, MergedConfig, KeyPlanned, MergedDiff;
    MergedStaysValid(printable, b, c, d);
    MergedMatchesDesired(printable, b, c, d);
    forall e <- MergedDiff(c, d)
      ensures e.kind.DiffUnchanged?
    {
      var p, m := MergedEntryIs(c, d, e);
    }
    UnchangedKeepsConfig(printable, c, d, again);
  }
}
