/** What the injection steps leave in the keys they own, and where the user's own values win. */
module ConfigContents {
  import opened Basics
  import opened JsonTree
  import opened ConfigPipeline
  import opened ConfigTheorems


  /** The models the user lists, or none where there is no such map. */
  function ModelsOf(c: Tree): Tree {
    Child(Defaults(c), "models")
  }

  /** The states of the config between the steps after the gateway steps. */
  datatype Stages = Stages(providers: Tree, plugins: Tree, catalog: Tree, search: Tree, stack: Tree, channels: Tree, mcp: Tree, web: Tree)

  ghost function StagesOf(g: Tree, inp: Inputs, owns: bool, allow: set<string> -> seq<string>): Stages
    requires inp.providers.Some? && inp.channels.Some?
  {
    var providers := InjectProviders(g, inp.providers.value);
    var plugins := InjectProviderPlugins(providers, inp.vertexPlugins);
    var catalog := InjectModelCatalog(plugins, inp, allow);
    var search := InjectMemorySearch(catalog, inp);
    var stack := InjectMemoryStack(search, inp, owns);
    var channels := InjectChannels(stack, inp.channels.value);
    var mcp := InjectMcpServers(channels, inp.mcpServers);
    var web := InjectWebSearch(mcp, inp);
    Stages(providers, plugins, catalog, search, stack, channels, mcp, if web.Ok? then web.value else mcp)
  }

  /** Each step stays within its own keys. */
  ghost predicate Disciplined(g: Tree, st: Stages, r: Tree) {
    && Keeps(g, st.providers, {"models"})
    && Keeps(st.providers, st.plugins, {"plugins"})
    && Keeps(st.plugins, st.catalog, {"agents"})
    && Keeps(st.catalog, st.search, {"memory"})
    && Keeps(st.search, st.stack, {"memory", "plugins"})
    && Keeps(st.stack, st.channels, {"channels", "plugins"})
    && Keeps(st.channels, st.mcp, {"mcp"})
    && Keeps(st.mcp, st.web, {"tools", "plugins"})
    && Keeps(st.web, r, {"diagnostics", "agents", "hooks"})
  }

  lemma StepsAreDisciplined(g: Tree, inp: Inputs, owns: bool, allow: set<string> -> seq<string>)
    requires inp.providers.Some? && inp.channels.Some?
    ensures var st := StagesOf(g, inp, owns, allow); Disciplined(g, st, FinalSteps(st.web, inp))
  {
    var st := StagesOf(g, inp, owns, allow);
    SetKeeps(g, ["models", "providers"], Obj(inp.providers.value), {"models"});
    PluginsKeep(st.providers, inp.vertexPlugins, {"plugins"});
    CatalogKeeps(st.plugins, inp, allow, {"agents"});
    MemorySearchKeeps(st.catalog, inp, {"memory"});
    MemoryStackKeeps(st.search, inp, owns, {"memory", "plugins"});
    ChannelsKeep(st.stack, inp.channels.value, {"channels", "plugins"});
    McpKeeps(st.channels, inp.mcpServers, {"mcp"});
    WebSearchKeeps(st.mcp, inp, {"tools", "plugins"});
    FinalStepsKeep(st.web, inp, {"diagnostics", "agents", "hooks"});
  }

  /** After the memory stack only channels, the tool steps and the final steps write. */
  lemma SettledLate(g: Tree, st: Stages, r: Tree)
    requires Disciplined(g, st, r)
    ensures Lookup(r, "models") == Lookup(st.stack, "models") && Lookup(r, "memory") == Lookup(st.stack, "memory")
    ensures Lookup(r, "channels") == Lookup(st.channels, "channels") && Lookup(r, "mcp") == Lookup(st.mcp, "mcp")
    ensures Lookup(st.channels, "mcp") == Lookup(st.stack, "mcp") && Lookup(st.web, "agents") == Lookup(st.stack, "agents")
  {
  }

  /** Up to the memory stack. */
  lemma SettledEarly(g: Tree, st: Stages, r: Tree)
    requires Disciplined(g, st, r)
    ensures Lookup(st.stack, "models") == Lookup(st.providers, "models")
    ensures Lookup(st.stack, "agents") == Lookup(st.catalog, "agents") && Lookup(st.plugins, "agents") == Lookup(g, "agents")
    ensures Lookup(st.catalog, "memory") == Lookup(g, "memory")
    ensures Lookup(st.stack, "channels") == Lookup(g, "channels") && Lookup(st.stack, "mcp") == Lookup(g, "mcp")
  {
  }

  /** Where each owned key gets its final value. */
  lemma Settled(g: Tree, st: Stages, r: Tree)
    requires Disciplined(g, st, r)
    ensures Lookup(r, "models") == Lookup(st.providers, "models")
    ensures Lookup(st.web, "agents") == Lookup(st.catalog, "agents") && Lookup(st.plugins, "agents") == Lookup(g, "agents")
    ensures Lookup(r, "memory") == Lookup(st.stack, "memory") && Lookup(st.catalog, "memory") == Lookup(g, "memory")
    ensures Lookup(r, "channels") == Lookup(st.channels, "channels") && Lookup(st.stack, "channels") == Lookup(g, "channels")
    ensures Lookup(r, "mcp") == Lookup(st.mcp, "mcp") && Lookup(st.channels, "mcp") == Lookup(g, "mcp")
  {
    SettledEarly(g, st, r);
    SettledLate(g, st, r);
  }

  /** Where each key of the result comes from, up to the merge. */
  ghost predicate Arrives(merged: Tree, st: Stages, r: Tree) {
    && Lookup(r, "models") == Lookup(st.providers, "models")
    && Lookup(r, "memory") == Lookup(st.stack, "memory") && Lookup(st.catalog, "memory") == Lookup(merged, "memory")
    && Lookup(r, "channels") == Lookup(st.channels, "channels") && Lookup(st.stack, "channels") == Lookup(merged, "channels")
    && Lookup(r, "mcp") == Lookup(st.mcp, "mcp") && Lookup(st.channels, "mcp") == Lookup(merged, "mcp")
    && ModelsOf(r) == ModelsOf(st.catalog) && ModelsOf(st.plugins) == ModelsOf(merged)
  }

  lemma EnrichByStages(template: Tree, user: Tree, inp: Inputs, owns: bool, allow: set<string> -> seq<string>)
    requires Enrich(template, user, inp, owns, allow).Ok?
    ensures inp.providers.Some? && inp.channels.Some?
    ensures var st := StagesOf(GatewaySteps(DeepMerge(template, user), inp), inp, owns, allow);
            Enrich(template, user, inp, owns, allow).value == FinalSteps(st.web, inp)
  {
  }

  lemma Trace(template: Tree, user: Tree, inp: Inputs, owns: bool, allow: set<string> -> seq<string>)
    returns (g: Tree, st: Stages, r: Tree)
    requires Enrich(template, user, inp, owns, allow).Ok?
    ensures r == Enrich(template, user, inp, owns, allow).value
    ensures Arrives(DeepMerge(template, user), st, r)
    ensures inp.providers.Some? && inp.channels.Some? && st == StagesOf(g, inp, owns, allow)
  {
    var merged := DeepMerge(template, user);
    EnrichByStages(template, user, inp, owns, allow);
    g := GatewaySteps(merged, inp);
    GatewayStepsKeep(merged, inp, {"gateway", "update", "agents"});
    GatewayModels(merged, inp);
    StepsAreDisciplined(g, inp, owns, allow);
    st := StagesOf(g, inp, owns, allow);
    r := FinalSteps(st.web, inp);
    FinalModels(st.web, inp);
    ArrivesBySteps(merged, g, st, r);
  }

  lemma ArrivesBySteps(merged: Tree, g: Tree, st: Stages, r: Tree)
    requires Keeps(merged, g, {"gateway", "update", "agents"}) && Disciplined(g, st, r)
    requires ModelsOf(g) == ModelsOf(merged) && ModelsOf(r) == ModelsOf(st.web)
    ensures Arrives(merged, st, r)
  {
    Settled(g, st, r);
    SameModels(st.plugins, g);
    SameModels(st.web, st.catalog);
  }

  /******* Providers, channels and MCP servers: the operator's value or the user's *******/

  ghost predicate OwnedKeys(merged: Tree, r: Tree, inp: Inputs)
    requires inp.channels.Some? && inp.providers.Some?
  {
    && GetAt(r, ["models", "providers"]) == Some(Obj(inp.providers.value))
    && Lookup(r, "channels") == (if inp.channels.value == map[] then Lookup(merged, "channels") else Some(Obj(inp.channels.value)))
    && Lookup(r, "mcp") == (if inp.mcpServers == map[] then Lookup(merged, "mcp") else Some(Obj(map["servers" := Obj(inp.mcpServers)])))
  }

  lemma ProvidersAt(g: Tree, r: Tree, providers: Tree)
    requires Lookup(r, "models") == Lookup(InjectProviders(g, providers), "models")
    ensures GetAt(r, ["models", "providers"]) == Some(Obj(providers))
  {
    GetAfterSet(g, ["models", "providers"], Obj(providers));
    SameHead(r, InjectProviders(g, providers), ["models", "providers"]);
  }

  lemma OwnedKeysFrom(merged: Tree, g: Tree, stack: Tree, channels: Tree, r: Tree, inp: Inputs)
    requires inp.channels.Some? && inp.providers.Some?
    requires Lookup(r, "models") == Lookup(InjectProviders(g, inp.providers.value), "models")
    requires Lookup(stack, "channels") == Lookup(merged, "channels") && Lookup(channels, "mcp") == Lookup(merged, "mcp")
    requires Lookup(r, "channels") == Lookup(InjectChannels(stack, inp.channels.value), "channels")
    requires Lookup(r, "mcp") == Lookup(InjectMcpServers(channels, inp.mcpServers), "mcp")
    ensures OwnedKeys(merged, r, inp)
  {
    ProvidersAt(g, r, inp.providers.value);
  }

  /** models.providers is always the operator's; channels and mcp are the operator's if it has any, else the merge's. */
  lemma OperatorOwnedKeys(template: Tree, user: Tree, inp: Inputs, owns: bool, allow: set<string> -> seq<string>)
    ensures Enrich(template, user, inp, owns, allow).Ok? ==>
            && inp.channels.Some? && inp.providers.Some?
            && OwnedKeys(DeepMerge(template, user), Enrich(template, user, inp, owns, allow).value, inp)
  {
    if Enrich(template, user, inp, owns, allow).Ok? {
      var g, st, r := Trace(template, user, inp, owns, allow);
      OwnedKeysFrom(DeepMerge(template, user), g, st.stack, st.channels, r, inp);
    }
  }

  /******* Memory search: the user's setting is never overridden *******/

  lemma SeededLayersKeep(c: Tree, inp: Inputs)
    ensures var c2 := if inp.dreaming.Some? then InjectDreaming(c, inp.dreaming.value) else c;
            Keeps(c, if inp.wiki.Some? then InjectWiki(c2, inp.wiki.value) else c2, {"plugins"})
  {
    var c2 := if inp.dreaming.Some? then InjectDreaming(c, inp.dreaming.value) else c;
    if inp.dreaming.Some? {
      DreamingKeeps(c, inp.dreaming.value, {"plugins"});
    }
    if inp.wiki.Some? {
      WikiKeeps(c2, inp.wiki.value, {"plugins"});
    }
  }

  lemma StackOnMemory(c: Tree, inp: Inputs, owns: bool)
    ensures var r := InjectMemoryStack(c, inp, owns);
            Lookup(r, "memory") == Lookup(c, "memory")
            || (!owns && inp.embedding.Some? && Lookup(r, "memory") == Lookup(SetAt(c, ["memory", "search", "enabled"], Bool(true)), "memory"))
  {
    var c1 := if inp.embedding.Some? && !owns then SetAt(c, ["memory", "search", "enabled"], Bool(true)) else c;
    SeededLayersKeep(c1, inp);
  }

  ghost predicate MemoryKept(merged: Tree, r: Tree, owns: bool) {
    && HasMemorySearch(r)
    && (owns && HasMemorySearch(merged) ==> Lookup(r, "memory") == Lookup(merged, "memory"))
  }

  lemma SameMemory(a: Tree, b: Tree)
    requires Lookup(a, "memory") == Lookup(b, "memory")
    ensures HasMemorySearch(a) == HasMemorySearch(b)
  {
  }

  lemma MemoryKeptAt(merged: Tree, c: Tree, r: Tree, inp: Inputs, owns: bool)
    requires Lookup(c, "memory") == Lookup(merged, "memory")
    requires Lookup(r, "memory") == Lookup(InjectMemoryStack(InjectMemorySearch(c, inp), inp, owns), "memory")
    ensures MemoryKept(merged, r, owns)
  {
    var searched := InjectMemorySearch(c, inp);
    StackOnMemory(searched, inp, owns);
    SameMemory(merged, c);
    if Lookup(r, "memory") == Lookup(searched, "memory") {
      SameMemory(r, searched);
    } else {
      SameMemory(r, SetAt(searched, ["memory", "search", "enabled"], Bool(true)));
    }
  }

  /**
   The result always says something about memory search.  Where the user owns it and it is
   set in the merged config, the whole memory key is the merged config's.
   */
  lemma UserMemorySearchWins(template: Tree, user: Tree, inp: Inputs, owns: bool, allow: set<string> -> seq<string>)
    ensures Enrich(template, user, inp, owns, allow).Ok? ==>
            MemoryKept(DeepMerge(template, user), Enrich(template, user, inp, owns, allow).value, owns)
  {
    if Enrich(template, user, inp, owns, allow).Ok? {
      var g, st, r := Trace(template, user, inp, owns, allow);
      MemoryKeptAt(DeepMerge(template, user), st.catalog, r, inp, owns);
    }
  }

  /******* The model catalog fills gaps *******/

  lemma CatalogSet(c: Tree, inp: Inputs, allow: set<string> -> seq<string>)
    ensures ModelsOf(InjectModelCatalog(c, inp, allow)) == inp.catalog + ModelsOf(c)
  {
    var d := Defaults(c);
    assert map[] + ModelsOf(c) == ModelsOf(c);
    if inp.catalog != map[] {
      var r := InjectModelCatalog(c, inp, allow);
      assert DEFAULTS[1..] == ["defaults"];
      assert Defaults(r) == CatalogDefaults(d, inp, allow);
      assert Child(CatalogDefaults(d, inp, allow), "models") == inp.catalog + Child(d, "models");
    }
  }

  /** Writing another setting of agents.defaults leaves its models alone. */
  lemma ModelsUntouched(c: Tree, key: string, v: Json)
    requires key != "models"
    ensures ModelsOf(SetAt(c, ["agents", "defaults", key], v)) == ModelsOf(c)
  {
    var p := ["agents", "defaults", key];
    var agents := Child(c, "agents");
    var d := Child(agents, "defaults");
    assert p[1..] == ["defaults", key] && p[1..][1..] == [key];
    assert SetAt(d, [key], v) == d[key := v];
    assert SetAt(agents, p[1..], v) == agents["defaults" := Obj(d[key := v])];
    assert Child(SetAt(c, p, v), "agents") == agents["defaults" := Obj(d[key := v])];
  }

  lemma SameModels(a: Tree, b: Tree)
    requires Lookup(a, "agents") == Lookup(b, "agents")
    ensures ModelsOf(a) == ModelsOf(b)
  {
  }

  lemma FirstGatewayModels(c: Tree)
    ensures ModelsOf(DisableUpdateCheck(EnforceTrustedProxies(EnforceInfrastructureKeys(c)))) == ModelsOf(c)
  {
    SameModels(c, DisableUpdateCheck(EnforceTrustedProxies(EnforceInfrastructureKeys(c))));
  }

  lemma LastGatewayModels(c: Tree, inp: Inputs)
    ensures ModelsOf(InjectAuthMode(InjectRouteHost(c, inp), inp)) == ModelsOf(c)
  {
    SameModels(c, InjectAuthMode(InjectRouteHost(c, inp), inp));
  }

  lemma GatewayModels(c: Tree, inp: Inputs)
    ensures ModelsOf(GatewaySteps(c, inp)) == ModelsOf(c)
  {
    var c3 := DisableUpdateCheck(EnforceTrustedProxies(EnforceInfrastructureKeys(c)));
    FirstGatewayModels(c);
    ModelsUntouched(c3, "skipOptionalBootstrapFiles", StringArr(["SOUL.md", "IDENTITY.md"]));
    LastGatewayModels(SkipDefaultPersonality(c3, inp), inp);
  }

  lemma FinalModels(c: Tree, inp: Inputs)
    ensures ModelsOf(FinalSteps(c, inp)) == ModelsOf(c)
  {
    var c1 := InjectDiagnostics(c, inp);
    DiagnosticsKeep(c, inp, {"diagnostics"});
    SameModels(c, c1);
    ModelsUntouched(c1, "skipBootstrap", Bool(true));
    var c2 := InjectSkipBootstrap(c1, inp);
    HookKeeps(c2, inp, {"hooks"});
    SameModels(c2, InjectBootstrapHook(c2, inp));
  }

  /** The model table is the catalog with the user's entries on top: no user entry is lost or changed. */
  lemma CatalogFillsGaps(template: Tree, user: Tree, inp: Inputs, owns: bool, allow: set<string> -> seq<string>)
    ensures Enrich(template, user, inp, owns, allow).Ok? ==>
            ModelsOf(Enrich(template, user, inp, owns, allow).value) == inp.catalog + ModelsOf(DeepMerge(template, user))
  {
    if Enrich(template, user, inp, owns, allow).Ok? {
      var g, st, r := Trace(template, user, inp, owns, allow);
      CatalogSet(st.plugins, inp, allow);
    }
  }

  /******* The memory layers: explicit settings are written, everything else is only seeded *******/

  function Layer(plugin: string, a: string, b: string): seq<string> {
    ["plugins", "entries", plugin, "config", a, b]
  }

  /** What seeding leaves: the user's value if there is one. */
  function OrElse(v: Option<Json>, default: Json): Option<Json> {
    if v.Some? then v else Some(default)
  }

  /** What a field of the spec leaves: its value, or nothing new where it is empty. */
  function IfSet(field: string, v: Option<Json>): Option<Json> {
    if field == "" then v else Some(Str(field))
  }

  /** Frequency and model are the spec's where given, the user's otherwise; enabled is only a default. */
  lemma DreamingSettles(c: Tree, d: Dreaming)
    ensures var r := InjectDreaming(c, d);
            && GetAt(r, Layer("memory-core", "dreaming", "enabled")) == OrElse(GetAt(c, Layer("memory-core", "dreaming", "enabled")), Bool(true))
            && GetAt(r, Layer("memory-core", "dreaming", "frequency")) == IfSet(d.frequency, GetAt(c, Layer("memory-core", "dreaming", "frequency")))
            && GetAt(r, Layer("memory-core", "dreaming", "model")) == IfSet(d.model, GetAt(c, Layer("memory-core", "dreaming", "model")))
  {
    var e, f, m := Layer("memory-core", "dreaming", "enabled"), Layer("memory-core", "dreaming", "frequency"), Layer("memory-core", "dreaming", "model");
    DivergeAt(e, f, 5);
    DivergeAt(e, m, 5);
    DivergeAt(f, m, 5);
    SeedThenSet(c, e, Bool(true), f, d.frequency, m, d.model);
    DreamingAsWrites(c, d, e, f, m);
  }

  lemma DreamingAsWrites(c: Tree, d: Dreaming, e: seq<string>, f: seq<string>, m: seq<string>)
    requires e == Layer("memory-core", "dreaming", "enabled")
    requires f == Layer("memory-core", "dreaming", "frequency") && m == Layer("memory-core", "dreaming", "model")
    ensures InjectDreaming(c, d) == SetIf(SetIf(SetDefaultAt(c, e, Bool(true)), f, d.frequency), m, d.model)
  {
    assert Entry("memory-core", ["config", "dreaming", "enabled"]) == e;
    assert Entry("memory-core", ["config", "dreaming", "frequency"]) == f;
    assert Entry("memory-core", ["config", "dreaming", "model"]) == m;
  }

  function SetIf(c: Tree, p: seq<string>, field: string): Tree
    requires p != []
  {
    if field == "" then c else SetAt(c, p, Str(field))
  }

  lemma SetIfReads(c: Tree, p: seq<string>, field: string, q: seq<string>)
    requires p != [] && q != [] && Diverge(p, q)
    ensures GetAt(SetIf(c, p, field), p) == IfSet(field, GetAt(c, p)) && GetAt(SetIf(c, p, field), q) == GetAt(c, q)
  {
    GetAfterSet(c, p, Str(field));
    SetFrame(c, p, Str(field), q);
  }

  lemma SeedThenSet(c: Tree, e: seq<string>, v: Json, f: seq<string>, x: string, m: seq<string>, y: string)
    requires e != [] && f != [] && m != [] && Diverge(e, f) && Diverge(e, m) && Diverge(f, m)
    ensures var r := SetIf(SetIf(SetDefaultAt(c, e, v), f, x), m, y);
            && GetAt(r, e) == OrElse(GetAt(c, e), v)
            && GetAt(r, f) == IfSet(x, GetAt(c, f))
            && GetAt(r, m) == IfSet(y, GetAt(c, m))
  {
    var c1 := SetDefaultAt(c, e, v);
    GetAfterDefault(c, e, v);
    DefaultFrame(c, e, v, f);
    DefaultFrame(c, e, v, m);
    var c2 := SetIf(c1, f, x);
    SetIfReads(c1, f, x, e);
    SetIfReads(c1, f, x, m);
    SetIfReads(c2, m, y, e);
    SetIfReads(c2, m, y, f);
  }

  const VAULT_MODE := ["plugins", "entries", "memory-wiki", "config", "vaultMode"]

  /** A seed elsewhere under the wiki's config does not change the vault mode. */
  lemma {:induction false} SeedTrueFrame(c: Tree, at: seq<string>, keys: seq<string>, q: seq<string>)
    requires at != [] && q != [] && Diverge(at, q)
    ensures GetAt(SeedTrue(c, at, keys), q) == GetAt(c, q)
    decreases |keys|
  {
    if keys != [] {
      var p := at + [keys[|keys| - 1]];
      SeedTrueFrame(c, at, keys[..|keys| - 1], q);
      assert p[..|at|] == at;
      assert Diverge(p, q) by {
        assert p <= q ==> at <= q;
        assert q <= p && |q| <= |at| ==> q <= at;
        assert q <= p && |q| > |at| ==> at <= q;
      }
      DefaultFrame(SeedTrue(c, at, keys[..|keys| - 1]), p, Bool(true), q);
    }
  }

  /** Every seeded switch is there, with the user's value where the user set one. */
  lemma {:induction false} SeedTrueSettles(c: Tree, at: seq<string>, keys: seq<string>, k: string)
    requires at != [] && k in keys
    ensures GetAt(SeedTrue(c, at, keys), at + [k]) == OrElse(GetAt(c, at + [k]), Bool(true))
    decreases |keys|
  {
    var last := |keys| - 1;
    var p, q := at + [keys[last]], at + [k];
    var before := SeedTrue(c, at, keys[..last]);
    GetAfterDefault(before, p, Bool(true));
    if k in keys[..last] {
      SeedTrueSettles(c, at, keys[..last], k);
    } else {
      SeedTrueOther(c, at, keys[..last], k);
    }
    if k != keys[last] {
      DivergeAt(p, q, |at|);
      DefaultFrame(before, p, Bool(true), q);
    }
  }

  lemma {:induction false} SeedTrueOther(c: Tree, at: seq<string>, keys: seq<string>, k: string)
    requires at != [] && k !in keys
    ensures GetAt(SeedTrue(c, at, keys), at + [k]) == GetAt(c, at + [k])
    decreases |keys|
  {
    if keys != [] {
      var last := |keys| - 1;
      SeedTrueOther(c, at, keys[..last], k);
      DivergeAt(at + [keys[last]], at + [k], |at|);
      DefaultFrame(SeedTrue(c, at, keys[..last]), at + [keys[last]], Bool(true), at + [k]);
    }
  }

  /** The vault mode is the spec's where given, else the user's, else bridge. */
  lemma VaultModeSettles(c: Tree, w: Wiki)
    ensures GetAt(InjectWiki(c, w), VAULT_MODE)
            == if w.mode != "" then Some(Str(w.mode)) else OrElse(GetAt(c, VAULT_MODE), Str("bridge"))
  {
    var on := WikiPath(["enabled"]);
    DivergeAt(on, VAULT_MODE, 3);
    var c1 := SetDefaultAt(c, on, Bool(true));
    DefaultFrame(c, on, Bool(true), VAULT_MODE);
    assert WikiPath(["config", "vaultMode"]) == VAULT_MODE;
    GetAfterSet(c1, VAULT_MODE, Str(w.mode));
    GetAfterDefault(c1, VAULT_MODE, Str("bridge"));
    var c2 := if w.mode != "" then SetAt(c1, VAULT_MODE, Str(w.mode)) else SetDefaultAt(c1, VAULT_MODE, Str("bridge"));
    VaultKeepsMode(c2);
  }

  lemma VaultKeepsMode(c: Tree)
    ensures GetAt(SeedVault(c), VAULT_MODE) == GetAt(c, VAULT_MODE)
  {
    var path, backend, corpus := WikiPath(["config", "vault", "path"]), WikiPath(["config", "search", "backend"]), WikiPath(["config", "search", "corpus"]);
    var bridge, render := WikiPath(["config", "bridge"]), WikiPath(["config", "render"]);
    DivergeAt(path, VAULT_MODE, 4);
    DivergeAt(backend, VAULT_MODE, 4);
    DivergeAt(corpus, VAULT_MODE, 4);
    DivergeAt(bridge, VAULT_MODE, 4);
    DivergeAt(render, VAULT_MODE, 4);
    var c1 := SetDefaultAt(c, path, Str("~/.openclaw/workspace/wiki/main"));
    DefaultFrame(c, path, Str("~/.openclaw/workspace/wiki/main"), VAULT_MODE);
    SeedTrueFrame(c1, bridge, BRIDGE_SWITCHES, VAULT_MODE);
    var c2 := SeedBridge(c1);
    DefaultFrame(c2, backend, Str("shared"), VAULT_MODE);
    var c3 := SetDefaultAt(c2, backend, Str("shared"));
    DefaultFrame(c3, corpus, Str("all"), VAULT_MODE);
    SeedTrueFrame(SetDefaultAt(c3, corpus, Str("all")), render, RENDER_SWITCHES, VAULT_MODE);
  }
}
