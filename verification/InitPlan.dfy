/**
 Planning a configuration change: which managed values of an existing configuration a
 desired state replaces, what it adds, and the diff that says so.
 */
module InitPlan {
  import opened Options

  // ---- configuration ----

  datatype Tuning = Tuning(concurrency: int, queueSize: int, queueBytes: int, queueTimeout: int, executionTimeout: int)

  datatype Provider = Provider(executable: string, prefixArgs: seq<string>, configHome: string,
                               credentialEnv: seq<string>, tuning: Tuning)

  datatype Model = Model(id: string, provider: string, providerModel: string, created: nat)

  /** `rest` stands for the server settings this planner never touches. */
  datatype Server = Server(apiKeyEnv: string, apiKeyFile: string, rest: nat)

  datatype Config = Config(server: Server, runtimeRoot: string, providers: map<string, Provider>, models: seq<Model>)

  /** The tuning the decoder gives a provider that sets none; durations in seconds. */
  const DEFAULT_TUNING := Tuning(1, 32, 16777216, 30, 300)

  // ---- desired state ----

  datatype Patch = Patch(name: string, executable: string, prefixArgs: seq<string>, configHome: string, credentialEnv: seq<string>)

  datatype GatewayPatch = GatewayPatch(isSet: bool, apiKeyEnv: string, apiKeyFile: string, keyExplicit: bool)

  datatype Mapping = Mapping(id: string, provider: string, providerModel: string)

  datatype Desired = Desired(newRuntimeRoot: string, gateway: GatewayPatch, selected: seq<string>, providers: seq<Patch>,
                             models: seq<Mapping>, replaceProviders: set<string>, replaceModels: set<string>)

  // ---- plan ----

  datatype DiffKind = DiffUnchanged | DiffAdded | DiffReplaced

  datatype DiffTarget = DiffGatewayAuth | DiffProvider | DiffModel

  datatype DiffField = DiffField(name: string, before: string, after: string)

  datatype DiffEntry = DiffEntry(kind: DiffKind, target: DiffTarget, name: string, fields: seq<DiffField>)

  datatype Collision = Collision(target: DiffTarget, name: string, fields: seq<DiffField>)

  datatype KeyAction = KeyActionNone | KeyActionInspect | KeyActionEnsure

  datatype Plan = Plan(config: Config, diff: seq<DiffEntry>, collisions: seq<Collision>, changed: bool,
                       keyAction: KeyAction, keyPath: string, keyAllowExisting: bool)

  // ---- joined lists ----

  function Join(items: seq<string>): string {
    if items == [] then "" else if |items| == 1 then items[0] else items[0] + "," + Join(items[1..])
  }

  predicate CommaFree(items: seq<string>) {
    forall s <- items :: s != "" && ',' !in s
  }

  /** What the configuration decoder guarantees of prefix arguments and credential names. */
  predicate PlainLists(prefixArgs: seq<string>, credentialEnv: seq<string>) {
    && |prefixArgs| <= 1 && (forall s <- prefixArgs :: s != "")
    && CommaFree(credentialEnv)
  }

  function CommaIndex(s: string): nat {
    if s == "" || s[0] == ',' then 0 else 1 + CommaIndex(s[1..])
  }

  lemma {:induction false} FirstComma(a: string, x: string)
    requires ',' !in a
    ensures CommaIndex(a + "," + x) == |a|
  {
    if a != "" {
      assert a[0] in a;
      assert (a + "," + x)[1..] == a[1..] + "," + x;
      FirstComma(a[1..], x);
    }
  }

  lemma RestCommaFree(items: seq<string>)
    requires CommaFree(items) && items != []
    ensures CommaFree(items[1..])
  {
    forall s <- items[1..]
      ensures s != "" && ',' !in s
    {
      assert s in items;
    }
  }

  /** On lists without commas, the joined text determines the list. */
  lemma {:induction false} JoinInjective(a: seq<string>, b: seq<string>)
    requires CommaFree(a) && CommaFree(b) && Join(a) == Join(b)
    ensures a == b
  {
    JoinShape(a);
    JoinShape(b);
    if |a| > 1 && |b| > 1 {
      var joined := Join(a);
      FirstComma(a[0], Join(a[1..]));
      FirstComma(b[0], Join(b[1..]));
      assert a[0] == joined[..|a[0]|] && b[0] == joined[..|b[0]|];
      assert Join(a[1..]) == joined[|a[0]| + 1..] && Join(b[1..]) == joined[|b[0]| + 1..];
      RestCommaFree(a);
      RestCommaFree(b);
      JoinInjective(a[1..], b[1..]);
      assert a == [a[0]] + a[1..] && b == [b[0]] + b[1..];
    }
  }

  lemma ShortJoinInjective(a: seq<string>, b: seq<string>)
    requires |a| <= 1 && |b| <= 1 && (forall s <- a :: s != "") && (forall s <- b :: s != "") && Join(a) == Join(b)
    ensures a == b
  {
    if a != [] {
      assert a == [a[0]] && a[0] in a;
    }
    if b != [] {
      assert b == [b[0]] && b[0] in b;
    }
  }

  /** The joined text tells whether the list is empty, and whether it has more than one item. */
  lemma JoinShape(a: seq<string>)
    requires CommaFree(a)
    ensures Join(a) == "" <==> a == []
    ensures ',' in Join(a) <==> |a| > 1
    ensures a != [] ==> ',' !in a[0]
  {
  }

  // ---- providers ----

  function Updated(was: Provider, patch: Patch): Provider {
    was.(executable := patch.executable, prefixArgs := patch.prefixArgs, configHome := patch.configHome,
         credentialEnv := patch.credentialEnv)
  }

  /** An absent provider is compared as empty. */
  function ProviderAt(providers: map<string, Provider>, name: string): Provider {
    if name in providers then providers[name] else Provider("", [], "", [], DEFAULT_TUNING)
  }

  function Changed(name: string, before: string, after: string, present: bool): (r: seq<DiffField>)
    ensures |r| <= 1 && forall f <- r :: f == DiffField(name, before, after)
  {
    if present && before == after then [] else [DiffField(name, before, after)]
  }

  function ProviderFields(before: Provider, after: Provider, present: bool): seq<DiffField> {
    Changed("executable", before.executable, after.executable, present)
    + Changed("prefix_args", Join(before.prefixArgs), Join(after.prefixArgs), present)
    + Changed("config_home", before.configHome, after.configHome, present)
    + Changed("credential_env", Join(before.credentialEnv), Join(after.credentialEnv), present)
  }

  function KindOf(present: bool, fields: seq<DiffField>): DiffKind {
    if !present then DiffAdded else if fields != [] then DiffReplaced else DiffUnchanged
  }

  function ProviderEntry(providers: map<string, Provider>, patch: Patch): DiffEntry {
    var before := ProviderAt(providers, patch.name);
    var fields := ProviderFields(before, Updated(before, patch), patch.name in providers);
    DiffEntry(KindOf(patch.name in providers, fields), DiffProvider, patch.name, fields)
  }

  function ProviderEntries(providers: map<string, Provider>, patches: seq<Patch>): (r: seq<DiffEntry>)
    ensures |r| == |patches| && forall k :: 0 <= k < |r| ==> r[k] == ProviderEntry(providers, patches[k])
  {
    if patches == [] then []
    else ProviderEntries(providers, patches[..|patches| - 1]) + [ProviderEntry(providers, patches[|patches| - 1])]
  }

  /** The replaced entries, as the previews to approve. */
  function Replaced(entries: seq<DiffEntry>): seq<Collision> {
    if entries == [] then []
    else
      var last := entries[|entries| - 1];
      Replaced(entries[..|entries| - 1])
      + if last.kind.DiffReplaced? then [Collision(last.target, last.name, last.fields)] else []
  }

  lemma {:induction false} ReplacedExactly(entries: seq<DiffEntry>)
    ensures forall c <- Replaced(entries) ::
              exists e <- entries :: e.kind.DiffReplaced? && c == Collision(e.target, e.name, e.fields)
    ensures forall e <- entries :: e.kind.DiffReplaced? ==> Collision(e.target, e.name, e.fields) in Replaced(entries)
  {
    if entries != [] {
      var rest, last := entries[..|entries| - 1], entries[|entries| - 1];
      ReplacedExactly(rest);
      assert entries == rest + [last];
    }
  }

  predicate DistinctPatches(patches: seq<Patch>) {
    forall i, j :: 0 <= i < j < |patches| ==> patches[i].name != patches[j].name
  }

  function PatchNames(patches: seq<Patch>): set<string> {
    set p <- patches :: p.name
  }

  /** What planning makes of one provider: its update, unless no field of the diff differs. */
  function AfterPatch(before: map<string, Provider>, patch: Patch): Provider {
    if ProviderEntry(before, patch).kind.DiffUnchanged? then ProviderAt(before, patch.name)
    else Updated(ProviderAt(before, patch.name), patch)
  }

  /** Every patched provider is planned, and every other provider is as before. */
  ghost predicate Patched(before: map<string, Provider>, after: map<string, Provider>, patches: seq<Patch>) {
    && after.Keys == before.Keys + PatchNames(patches)
    && (forall p <- patches :: after[p.name] == AfterPatch(before, p))
    && (forall name <- before :: name !in PatchNames(patches) ==> after[name] == before[name])
  }

  lemma PatchStep(before: map<string, Provider>, after: map<string, Provider>, patches: seq<Patch>, patch: Patch)
    requires Patched(before, after, patches) && patch.name !in PatchNames(patches)
    ensures Patched(before, after[patch.name := AfterPatch(before, patch)], patches + [patch])
  {
    hide AfterPatch;
    var next := after[patch.name := AfterPatch(before, patch)];
    assert PatchNames(patches + [patch]) == PatchNames(patches) + {patch.name};
    forall p <- patches + [patch]
      ensures next[p.name] == AfterPatch(before, p)
    {
      if p in patches {
        assert p.name in PatchNames(patches);
      }
    }
  }

  /** An unchanged entry leaves the map as it is. */
  lemma UnchangedStep(before: map<string, Provider>, after: map<string, Provider>, patches: seq<Patch>, patch: Patch)
    requires Patched(before, after, patches) && patch.name !in PatchNames(patches)
    requires ProviderEntry(before, patch).kind.DiffUnchanged?
    ensures after[patch.name := AfterPatch(before, patch)] == after
  {
  }

  lemma EntriesGrow(providers: map<string, Provider>, patches: seq<Patch>, patch: Patch)
    ensures ProviderEntries(providers, patches + [patch]) == ProviderEntries(providers, patches) + [ProviderEntry(providers, patch)]
  {
  }

  lemma ReplacedGrows(entries: seq<DiffEntry>, last: DiffEntry)
    ensures Replaced(entries + [last])
            == Replaced(entries) + if last.kind.DiffReplaced? then [Collision(last.target, last.name, last.fields)] else []
  {
  }

  method PlanProviders(providers: map<string, Provider>, patches: seq<Patch>)
    returns (after: map<string, Provider>, diff: seq<DiffEntry>, collisions: seq<Collision>)
    requires DistinctPatches(patches)
    ensures Patched(providers, after, patches)
    ensures diff == ProviderEntries(providers, patches)
    ensures collisions == Replaced(diff)
  {
    hide Patched, ProviderFields, Updated, ProviderAt, PatchNames, DistinctPatches, Replaced, ProviderEntries;
    after, diff, collisions := providers, [], [];
    NothingPatched(providers);
    var k := 0;
    while k < |patches|
      invariant 0 <= k <= |patches|
      invariant Patched(providers, after, patches[..k])
      invariant diff == ProviderEntries(providers, patches[..k]) && collisions == Replaced(diff)
    {
      var patch := patches[k];
      NewName(patches, k);
      assert patches[..k + 1] == patches[..k] + [patch];
      EntriesGrow(providers, patches[..k], patch);
      SameProvider(providers, after, patches[..k], patch);
      PatchStep(providers, after, patches[..k], patch);
      var present := patch.name in after;
      var updated := Updated(ProviderAt(after, patch.name), patch);
      var fields := ProviderFields(ProviderAt(after, patch.name), updated, present);
      var entry := DiffEntry(KindOf(present, fields), DiffProvider, patch.name, fields);
      assert entry == ProviderEntry(providers, patch);
      ReplacedGrows(diff, entry);
      if !present || fields != [] {
        after := after[patch.name := updated];
      } else {
        UnchangedStep(providers, after, patches[..k], patch);
      }
      if present && fields != [] {
        collisions := collisions + [Collision(DiffProvider, patch.name, fields)];
      }
      diff := diff + [entry];
      k := k + 1;
    }
    assert patches[..k] == patches;
  }

  lemma NothingPatched(providers: map<string, Provider>)
    ensures Patched(providers, providers, []) && ProviderEntries(providers, []) == [] && Replaced([]) == []
  {
  }

  lemma NewName(patches: seq<Patch>, k: nat)
    requires DistinctPatches(patches) && k < |patches|
    ensures patches[k].name !in PatchNames(patches[..k])
  {
  }

  lemma SameProvider(before: map<string, Provider>, after: map<string, Provider>, patches: seq<Patch>, patch: Patch)
    requires Patched(before, after, patches) && patch.name !in PatchNames(patches)
    ensures ProviderAt(after, patch.name) == ProviderAt(before, patch.name)
    ensures patch.name in before <==> patch.name in after
  {
  }

  // ---- gateway authentication ----

  function GatewayMode(server: Server): string {
    if server.apiKeyFile != "" then "file" else if server.apiKeyEnv != "" then "environment" else "none"
  }

  function AfterGateway(server: Server, patch: GatewayPatch): Server {
    if patch.isSet then server.(apiKeyEnv := patch.apiKeyEnv, apiKeyFile := patch.apiKeyFile) else server
  }

  function GatewayEntry(before: Server, after: Server): DiffEntry {
    DiffEntry(if before == after then DiffUnchanged else DiffReplaced, DiffGatewayAuth, "gateway",
              [DiffField("mode", GatewayMode(before), GatewayMode(after))]
              + Changed("key_file", before.apiKeyFile, after.apiKeyFile, true)
              + Changed("key_env", before.apiKeyEnv, after.apiKeyEnv, true))
  }

  function GatewayEntries(server: Server, patch: GatewayPatch): seq<DiffEntry> {
    if patch.isSet then [GatewayEntry(server, AfterGateway(server, patch))] else []
  }

  method PlanGateway(before: Server, patch: GatewayPatch) returns (after: Server, changed: bool, diff: seq<DiffEntry>)
    ensures after == AfterGateway(before, patch)
    ensures changed <==> after != before
    ensures diff == GatewayEntries(before, patch)
  {
    after, changed, diff := before, false, [];
    if !patch.isSet {
      return;
    }
    var updated := before.(apiKeyEnv := patch.apiKeyEnv, apiKeyFile := patch.apiKeyFile);
    changed := GatewayMode(before) != GatewayMode(updated) || before.apiKeyFile != updated.apiKeyFile
               || before.apiKeyEnv != updated.apiKeyEnv;
    var kind := DiffUnchanged;
    if changed {
      kind := DiffReplaced;
      after := updated;
    }
    var fields := [DiffField("mode", GatewayMode(before), GatewayMode(updated))];
    if before.apiKeyFile != updated.apiKeyFile {
      fields := fields + [DiffField("key_file", before.apiKeyFile, updated.apiKeyFile)];
    }
    if before.apiKeyEnv != updated.apiKeyEnv {
      fields := fields + [DiffField("key_env", before.apiKeyEnv, updated.apiKeyEnv)];
    }
    assert fields == GatewayEntry(before, updated).fields;
    diff := [DiffEntry(kind, DiffGatewayAuth, "gateway", fields)];
  }

  // ---- models ----

  predicate DistinctModels(models: seq<Model>) {
    forall i, j :: 0 <= i < j < |models| ==> models[i].id != models[j].id
  }

  predicate DistinctMappings(mappings: seq<Mapping>) {
    forall i, j :: 0 <= i < j < |mappings| ==> mappings[i].id != mappings[j].id
  }

  /** The model with this alias. */
  function FindModel(models: seq<Model>, id: string): (r: Option<Model>)
    ensures r.Some? ==> r.value in models && r.value.id == id
    ensures r.None? ==> forall m <- models :: m.id != id
  {
    if models == [] then None else if models[0].id == id then Some(models[0]) else FindModel(models[1..], id)
  }

  lemma {:induction false} FindsAt(models: seq<Model>, i: nat)
    requires DistinctModels(models) && i < |models|
    ensures FindModel(models, models[i].id) == Some(models[i])
  {
  }

  function Mapped(was: Model, mapping: Mapping): Model {
    was.(provider := mapping.provider, providerModel := mapping.providerModel)
  }

  function NewModel(mapping: Mapping): Model {
    Model(mapping.id, mapping.provider, mapping.providerModel, 0)
  }

  function ModelFields(before: Model, after: Model): seq<DiffField> {
    Changed("provider", before.provider, after.provider, true)
    + Changed("provider_model", before.providerModel, after.providerModel, true)
  }

  function ModelEntry(models: seq<Model>, mapping: Mapping): DiffEntry {
    var found := FindModel(models, mapping.id);
    if found.None? then
      DiffEntry(DiffAdded, DiffModel, mapping.id,
                [DiffField("provider", "", mapping.provider), DiffField("provider_model", "", mapping.providerModel)])
    else
      var fields := ModelFields(found.value, Mapped(found.value, mapping));
      DiffEntry(KindOf(true, fields), DiffModel, mapping.id, fields)
  }

  function ModelEntries(models: seq<Model>, mappings: seq<Mapping>): (r: seq<DiffEntry>)
    ensures |r| == |mappings| && forall k :: 0 <= k < |r| ==> r[k] == ModelEntry(models, mappings[k])
  {
    if mappings == [] then []
    else ModelEntries(models, mappings[..|mappings| - 1]) + [ModelEntry(models, mappings[|mappings| - 1])]
  }

  /** One model after planning: mapped if a mapping names it. */
  function AfterMapping(m: Model, mappings: seq<Mapping>): Model {
    if mappings == [] then m
    else if mappings[|mappings| - 1].id == m.id then Mapped(m, mappings[|mappings| - 1])
    else AfterMapping(m, mappings[..|mappings| - 1])
  }

  /** The models the mappings add, in the order of the mappings. */
  function Additions(models: seq<Model>, mappings: seq<Mapping>): seq<Model> {
    if mappings == [] then []
    else
      var last := mappings[|mappings| - 1];
      Additions(models, mappings[..|mappings| - 1]) + if FindModel(models, last.id).None? then [NewModel(last)] else []
  }

  /** Existing models keep their places, with their mapped values; the rest are appended. */
  function AfterModels(models: seq<Model>, mappings: seq<Mapping>): seq<Model> {
    InPlace(models, mappings) + Additions(models, mappings)
  }

  function InPlace(models: seq<Model>, mappings: seq<Mapping>): (r: seq<Model>)
    ensures |r| == |models| && forall i :: 0 <= i < |r| ==> r[i] == AfterMapping(models[i], mappings)
  {
    seq(|models|, i requires 0 <= i < |models| => AfterMapping(models[i], mappings))
  }

  function MappingIds(mappings: seq<Mapping>): set<string> {
    set m <- mappings :: m.id
  }

  lemma {:induction false} UnmappedStays(m: Model, mappings: seq<Mapping>)
    requires m.id !in MappingIds(mappings)
    ensures AfterMapping(m, mappings) == m
  {
    if mappings != [] {
      assert mappings[|mappings| - 1].id in MappingIds(mappings);
      UnmappedStays(m, mappings[..|mappings| - 1]);
    }
  }

  lemma {:induction false} AfterMappingKeeps(m: Model, mappings: seq<Mapping>)
    ensures AfterMapping(m, mappings).id == m.id && AfterMapping(m, mappings).created == m.created
  {
    if mappings != [] {
      AfterMappingKeeps(m, mappings[..|mappings| - 1]);
    }
  }

  lemma {:induction false} AdditionsAreNew(models: seq<Model>, mappings: seq<Mapping>)
    ensures forall m <- Additions(models, mappings) :: m.id in MappingIds(mappings) && FindModel(models, m.id).None? && m.created == 0
  {
    if mappings != [] {
      AdditionsAreNew(models, mappings[..|mappings| - 1]);
    }
  }

  lemma ReplacedInFront(x: seq<Model>, y: seq<Model>, i: nat, m: Model)
    requires i < |x|
    ensures (x + y)[i] == x[i] && (x + y)[i := m] == x[i := m] + y
  {
  }

  lemma {:induction false} OneModelMapped(models: seq<Model>, mappings: seq<Mapping>, mapping: Mapping, i: nat)
    requires DistinctModels(models) && i < |models| && models[i].id == mapping.id
    requires InPlace(models, mappings)[i] == models[i]
    ensures InPlace(models, mappings + [mapping]) == InPlace(models, mappings)[i := Mapped(models[i], mapping)]
  {
  }

  lemma ExistingStep(models: seq<Model>, mappings: seq<Mapping>, mapping: Mapping, i: nat)
    requires DistinctModels(models) && mapping.id !in MappingIds(mappings) && i < |models| && models[i].id == mapping.id
    ensures AfterModels(models, mappings)[i] == models[i] && FindModel(models, mapping.id) == Some(models[i])
    ensures AfterModels(models, mappings + [mapping]) == AfterModels(models, mappings)[i := Mapped(models[i], mapping)]
  {
    assert (mappings + [mapping])[..|mappings|] == mappings;
    FindsAt(models, i);
    UnmappedStays(models[i], mappings);
    OneModelMapped(models, mappings, mapping, i);
    ReplacedInFront(InPlace(models, mappings), Additions(models, mappings), i, Mapped(models[i], mapping));
    assert Additions(models, mappings + [mapping]) == Additions(models, mappings);
    hide InPlace;
  }

  lemma AddedStep(models: seq<Model>, mappings: seq<Mapping>, mapping: Mapping)
    requires FindModel(models, mapping.id).None?
    ensures AfterModels(models, mappings + [mapping]) == AfterModels(models, mappings) + [NewModel(mapping)]
  {
  }

  /** Where an alias stands after planning a prefix of the mappings, for an alias they do not name. */
  lemma StillThere(models: seq<Model>, mappings: seq<Mapping>, id: string, i: nat)
    requires id !in MappingIds(mappings) && i < |AfterModels(models, mappings)|
    requires AfterModels(models, mappings)[i].id == id
    ensures i < |models| && models[i].id == id
  {
    AdditionsAreNew(models, mappings);
    if i < |models| {
      AfterMappingKeeps(models[i], mappings);
    } else {
      assert AfterModels(models, mappings)[i] in Additions(models, mappings);
    }
  }

  lemma ModelEntriesGrow(models: seq<Model>, mappings: seq<Mapping>, mapping: Mapping)
    ensures ModelEntries(models, mappings + [mapping]) == ModelEntries(models, mappings) + [ModelEntry(models, mapping)]
  {
  }

  ghost predicate Indexed(models: seq<Model>, byId: map<string, nat>) {
    && (forall id <- byId :: byId[id] < |models| && models[byId[id]].id == id)
    && (forall i | 0 <= i < |models| :: models[i].id in byId)
  }

  method IndexModels(models: seq<Model>) returns (byId: map<string, nat>)
    ensures Indexed(models, byId)
  {
    byId := map[];
    var i := 0;
    while i < |models|
      invariant 0 <= i <= |models| && Indexed(models[..i], byId)
    {
      byId := byId[models[i].id := i];
      i := i + 1;
    }
    assert models[..i] == models;
  }

  lemma IndexUpdated(models: seq<Model>, byId: map<string, nat>, index: nat, m: Model)
    requires Indexed(models, byId) && index < |models| && m.id == models[index].id
    ensures Indexed(models[index := m], byId)
  {
  }

  method PlanModels(models: seq<Model>, mappings: seq<Mapping>)
    returns (after: seq<Model>, diff: seq<DiffEntry>, collisions: seq<Collision>)
    requires DistinctModels(models) && DistinctMappings(mappings)
    ensures after == AfterModels(models, mappings)
    ensures diff == ModelEntries(models, mappings)
    ensures collisions == Replaced(diff)
  {
    hide AfterModels, ModelEntries, Replaced, DistinctModels, DistinctMappings, MappingIds;
    after, diff, collisions := models, [], [];
    var byId: map<string, nat> := IndexModels(models);
    NothingMapped(models);
    var k := 0;
    while k < |mappings|
      invariant 0 <= k <= |mappings|
      invariant after == AfterModels(models, mappings[..k]) && Indexed(after, byId)
      invariant diff == ModelEntries(models, mappings[..k]) && collisions == Replaced(diff)
    {
      var mapping := mappings[k];
      ghost var done := mappings[..k];
      NewAlias(mappings, k);
      assert mappings[..k + 1] == done + [mapping];
      ModelEntriesGrow(models, done, mapping);
      if mapping.id !in byId {
        Missing(models, done, mapping.id);
        AddedStep(models, done, mapping);
        ReplacedGrows(diff, ModelEntry(models, mapping));
        after := after + [NewModel(mapping)];
        byId := byId[mapping.id := |after| - 1];
        diff := diff + [DiffEntry(DiffAdded, DiffModel, mapping.id,
                                  [DiffField("provider", "", mapping.provider), DiffField("provider_model", "", mapping.providerModel)])];
      } else {
        var index := byId[mapping.id];
        StillThere(models, done, mapping.id, index);
        ExistingStep(models, done, mapping, index);
        var before := after[index];
        var updated := Mapped(before, mapping);
        var fields := ModelFields(before, updated);
        var entry := DiffEntry(KindOf(true, fields), DiffModel, before.id, fields);
        ReplacedGrows(diff, entry);
        if fields != [] {
          IndexUpdated(after, byId, index, updated);
          after := after[index := updated];
          collisions := collisions + [Collision(DiffModel, before.id, fields)];
        } else {
          assert after[index := updated] == after;
        }
        diff := diff + [entry];
      }
      k := k + 1;
    }
    assert mappings[..k] == mappings;
  }

  lemma NothingMapped(models: seq<Model>)
    ensures AfterModels(models, []) == models && ModelEntries(models, []) == [] && Replaced([]) == []
  {
  }

  lemma NewAlias(mappings: seq<Mapping>, k: nat)
    requires DistinctMappings(mappings) && k < |mappings|
    ensures mappings[k].id !in MappingIds(mappings[..k])
  {
  }

  lemma Missing(models: seq<Model>, mappings: seq<Mapping>, id: string)
    requires forall i | 0 <= i < |AfterModels(models, mappings)| :: AfterModels(models, mappings)[i].id != id
    ensures FindModel(models, id).None?
  {
    forall i | 0 <= i < |models|
      ensures models[i].id != id
    {
      AfterMappingKeeps(models[i], mappings);
      assert AfterModels(models, mappings)[i].id != id;
    }
  }
}
