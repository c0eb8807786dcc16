/** What the enrichment pipeline guarantees for every template, user config and Claw. */
module ConfigTheorems {
  import opened Basics
  import opened JsonTree
  import opened ConfigPipeline

  /******* Frames over top-level keys *******/

  /** `b` equals `a` at every top-level key that is not owned. */
  ghost predicate Keeps(a: Tree, b: Tree, owned: set<string>) {
    forall k :: k !in owned ==> Lookup(a, k) == Lookup(b, k)
  }

  /** Top-level keys written after the gateway steps. */
  const LATER := {"models", "plugins", "agents", "memory", "channels", "mcp", "tools", "diagnostics", "hooks"}

  /** Top-level keys the gateway steps write, and those the final steps write. */
  const GATEWAY_KEYS := {"gateway", "update", "agents"}
  const FINAL_KEYS := {"diagnostics", "agents", "hooks"}

  /** Every top-level key some step writes. */
  const OWNED := LATER + {"gateway", "update"}

  lemma SetKeeps(m: Tree, p: seq<string>, v: Json, owned: set<string>)
    requires p != [] && p[0] in owned
    ensures Keeps(m, SetAt(m, p, v), owned)
    ensures Keeps(m, SetDefaultAt(m, p, v), owned)
    ensures Keeps(m, DeleteAt(m, p), owned)
  {
  }

  lemma SameHead(a: Tree, b: Tree, q: seq<string>)
    requires q != [] && Lookup(a, q[0]) == Lookup(b, q[0])
    ensures GetAt(a, q) == GetAt(b, q)
  {
  }

  lemma {:induction false} PluginsKeep(c: Tree, ids: seq<string>, owned: set<string>)
    requires "plugins" in owned
    ensures Keeps(c, InjectProviderPlugins(c, ids), owned)
  {
    if ids != [] {
      var last := |ids| - 1;
      PluginsKeep(c, ids[..last], owned);
      SetKeeps(InjectProviderPlugins(c, ids[..last]), ["plugins", "entries", ids[last]], ENABLED, owned);
    }
  }

  lemma {:induction false} SeedKeeps(c: Tree, at: seq<string>, keys: seq<string>, owned: set<string>)
    requires at != [] && at[0] in owned
    ensures Keeps(c, SeedTrue(c, at, keys), owned)
  {
    if keys != [] {
      var last := |keys| - 1;
      SeedKeeps(c, at, keys[..last], owned);
      SetKeeps(SeedTrue(c, at, keys[..last]), at + [keys[last]], Bool(true), owned);
    }
  }

  lemma DreamingKeeps(c: Tree, d: Dreaming, owned: set<string>)
    requires "plugins" in owned
    ensures Keeps(c, InjectDreaming(c, d), owned)
  {
    var enabled, frequency := Entry("memory-core", ["config", "dreaming", "enabled"]), Entry("memory-core", ["config", "dreaming", "frequency"]);
    var c1 := SetDefaultAt(c, enabled, Bool(true));
    var c2 := if d.frequency == "" then c1 else SetAt(c1, frequency, Str(d.frequency));
    SetKeeps(c, enabled, Bool(true), owned);
    SetKeeps(c1, frequency, Str(d.frequency), owned);
    SetKeeps(c2, Entry("memory-core", ["config", "dreaming", "model"]), Str(d.model), owned);
  }

  lemma WikiKeeps(c: Tree, w: Wiki, owned: set<string>)
    requires "plugins" in owned
    ensures Keeps(c, InjectWiki(c, w), owned)
  {
    var mode := WikiPath(["config", "vaultMode"]);
    var c1 := SetDefaultAt(c, WikiPath(["enabled"]), Bool(true));
    SetKeeps(c, WikiPath(["enabled"]), Bool(true), owned);
    var c2 := if w.mode != "" then SetAt(c1, mode, Str(w.mode)) else SetDefaultAt(c1, mode, Str("bridge"));
    SetKeeps(c1, mode, Str(w.mode), owned);
    SetKeeps(c1, mode, Str("bridge"), owned);
    WikiTailKeeps(c2, owned);
  }

  lemma WikiTailKeeps(c: Tree, owned: set<string>)
    requires "plugins" in owned
    ensures Keeps(c, SeedVault(c), owned)
  {
    var path := Str("~/.openclaw/workspace/wiki/main");
    var c3 := SetDefaultAt(c, WikiPath(["config", "vault", "path"]), path);
    SetKeeps(c, WikiPath(["config", "vault", "path"]), path, owned);
    var c4 := SeedBridge(c3);
    SeedKeeps(c3, WikiPath(["config", "bridge"]), BRIDGE_SWITCHES, owned);
    var c5 := SetDefaultAt(c4, WikiPath(["config", "search", "backend"]), Str("shared"));
    SetKeeps(c4, WikiPath(["config", "search", "backend"]), Str("shared"), owned);
    var c6 := SetDefaultAt(c5, WikiPath(["config", "search", "corpus"]), Str("all"));
    SetKeeps(c5, WikiPath(["config", "search", "corpus"]), Str("all"), owned);
    SeedKeeps(c6, WikiPath(["config", "render"]), RENDER_SWITCHES, owned);
  }

  lemma CatalogKeeps(c: Tree, inp: Inputs, allow: set<string> -> seq<string>, owned: set<string>)
    requires "agents" in owned
    ensures Keeps(c, InjectModelCatalog(c, inp, allow), owned)
  {
    SetKeeps(c, DEFAULTS, Obj(CatalogDefaults(Defaults(c), inp, allow)), owned);
  }

  lemma MemorySearchKeeps(c: Tree, inp: Inputs, owned: set<string>)
    requires "memory" in owned
    ensures Keeps(c, InjectMemorySearch(c, inp), owned)
  {
    if inp.embedding.Some? {
      SetKeeps(c, ["memory", "search", "provider"], Str(inp.embedding.value), owned);
    } else {
      SetKeeps(c, ["memory", "search", "enabled"], Bool(false), owned);
    }
  }

  lemma MemoryStackKeeps(c: Tree, inp: Inputs, owns: bool, owned: set<string>)
    requires "plugins" in owned && "memory" in owned
    ensures Keeps(c, InjectMemoryStack(c, inp, owns), owned)
  {
    var c1 := if inp.embedding.Some? && !owns then SetAt(c, ["memory", "search", "enabled"], Bool(true)) else c;
    SetKeeps(c, ["memory", "search", "enabled"], Bool(true), owned);
    var c2 := if inp.dreaming.Some? then InjectDreaming(c1, inp.dreaming.value) else c1;
    if inp.dreaming.Some? {
      DreamingKeeps(c1, inp.dreaming.value, owned);
    }
    if inp.wiki.Some? {
      WikiKeeps(c2, inp.wiki.value, owned);
    }
  }

  lemma ProviderStepsKeep(c: Tree, inp: Inputs, owns: bool, allow: set<string> -> seq<string>, providers: Tree)
    ensures Keeps(c, ProviderSteps(c, inp, owns, allow, providers), LATER)
  {
    var c1 := InjectProviders(c, providers);
    SetKeeps(c, ["models", "providers"], Obj(providers), LATER);
    var c2 := InjectProviderPlugins(c1, inp.vertexPlugins);
    PluginsKeep(c1, inp.vertexPlugins, LATER);
    var c3 := InjectModelCatalog(c2, inp, allow);
    CatalogKeeps(c2, inp, allow, LATER);
    MemorySearchKeeps(c3, inp, LATER);
    MemoryStackKeeps(InjectMemorySearch(c3, inp), inp, owns, LATER);
  }

  lemma ChannelsKeep(c: Tree, channels: Tree, owned: set<string>)
    requires "channels" in owned && "plugins" in owned
    ensures Keeps(c, InjectChannels(c, channels), owned)
  {
    if channels != map[] {
      var c1 := c["channels" := Obj(channels)];
      assert Keeps(c, c1, owned);
      var plugins := map k | k in channels :: ENABLED;
      SetKeeps(c1, ["plugins", "entries"], Obj(Child(Child(c1, "plugins"), "entries") + plugins), owned);
    }
  }

  lemma McpKeeps(c: Tree, servers: Tree, owned: set<string>)
    requires "mcp" in owned
    ensures Keeps(c, InjectMcpServers(c, servers), owned)
  {
  }

  lemma WebSearchKeeps(c: Tree, inp: Inputs, owned: set<string>)
    requires "tools" in owned && "plugins" in owned
    ensures InjectWebSearch(c, inp).Ok? ==> Keeps(c, InjectWebSearch(c, inp).value, owned)
  {
    var fetch := ["tools", "web", "fetch"];
    var fetched := if inp.webFetch.Some? then Obj(map["enabled" := Bool(inp.webFetch.value)]) else Null;
    if inp.webSearch.None? {
      SetKeeps(c, fetch, fetched, owned);
    } else {
      var ws := inp.webSearch.value;
      var entry := Obj(map["enabled" := Bool(true), "provider" := Str(ws.provider)]);
      var c1 := SetAt(c, ["tools", "web", "search"], entry);
      SetKeeps(c, ["tools", "web", "search"], entry, owned);
      if ws.config.Some? {
        var path := Entry(ws.pluginID, ["config", "webSearch"]);
        var c2 := if ws.config.value == map[] then c1 else SetAt(c1, path, Obj(ws.config.value));
        SetKeeps(c1, path, Obj(ws.config.value), owned);
        SetKeeps(c2, fetch, fetched, owned);
      }
    }
  }

  lemma DiagnosticsKeep(c: Tree, inp: Inputs, owned: set<string>)
    requires "diagnostics" in owned
    ensures Keeps(c, InjectDiagnostics(c, inp), owned)
  {
    var on := Bool(true);
    var c1 := SetAt(c, ["diagnostics", "otel", "enabled"], on);
    SetKeeps(c, ["diagnostics", "otel", "enabled"], on, owned);
    var c2 := if inp.traces then SetAt(c1, ["diagnostics", "otel", "traces"], on) else c1;
    SetKeeps(c1, ["diagnostics", "otel", "traces"], on, owned);
    var c3 := if inp.logs then SetAt(c2, ["diagnostics", "otel", "logs"], on) else c2;
    SetKeeps(c2, ["diagnostics", "otel", "logs"], on, owned);
    var c4 := if inp.metrics then SetAt(c3, ["diagnostics", "otel", "metrics"], on) else c3;
    SetKeeps(c3, ["diagnostics", "otel", "metrics"], on, owned);
    SetKeeps(c4, ["diagnostics", "otel", "endpoint"], Str(inp.otlpEndpoint), owned);
  }

  lemma HookKeeps(c: Tree, inp: Inputs, owned: set<string>)
    requires "hooks" in owned
    ensures Keeps(c, InjectBootstrapHook(c, inp), owned)
  {
    SetKeeps(c, ["hooks", "internal", "enabled"], Bool(true), owned);
    var c1 := SetAt(c, ["hooks", "internal", "enabled"], Bool(true));
    SetKeeps(c1, HOOK, Obj(map["enabled" := Bool(true), "paths" := StringArr([".operator/BOOTSTRAP.md"])]), owned);
  }

  lemma FinalStepsKeep(c: Tree, inp: Inputs, owned: set<string>)
    requires "diagnostics" in owned && "agents" in owned && "hooks" in owned
    ensures Keeps(c, FinalSteps(c, inp), owned)
  {
    var c1 := InjectDiagnostics(c, inp);
    DiagnosticsKeep(c, inp, owned);
    SetKeeps(c1, ["agents", "defaults", "skipBootstrap"], Bool(true), owned);
    HookKeeps(InjectSkipBootstrap(c1, inp), inp, owned);
  }

  /** After the gateway steps nothing touches the gateway, the update check or foreign keys. */
  lemma LaterStepsKeep(c: Tree, inp: Inputs, owns: bool, allow: set<string> -> seq<string>, r: Tree)
    requires inp.providers.Some?
    requires var t := ToolSteps(ProviderSteps(c, inp, owns, allow, inp.providers.value), inp);
             t.Ok? && r == FinalSteps(t.value, inp)
    ensures Keeps(c, r, LATER)
  {
    var c2 := ProviderSteps(c, inp, owns, allow, inp.providers.value);
    ProviderStepsKeep(c, inp, owns, allow, inp.providers.value);
    var c3 := InjectChannels(c2, inp.channels.value);
    ChannelsKeep(c2, inp.channels.value, LATER);
    McpKeeps(c3, inp.mcpServers, LATER);
    var c4 := InjectMcpServers(c3, inp.mcpServers);
    WebSearchKeeps(c4, inp, LATER);
    FinalStepsKeep(InjectWebSearch(c4, inp).value, inp, LATER);
  }

  /******* The gateway steps *******/

  lemma DivergeAt(p: seq<string>, q: seq<string>, i: nat)
    requires i < |p| && i < |q| && p[i] != q[i]
    ensures Diverge(p, q)
  {
  }

  /** The paths the gateway steps write, pairwise apart. */
  const WRITTEN := [MODE, BIND, PORT, AUTH, TRUSTED, UI_ENABLED, UI_ORIGINS, UI_NO_DEVICE_AUTH, CHECK_ON_START]

  lemma WrittenPathsDiverge(i: nat, j: nat)
    requires i < |WRITTEN| && j < |WRITTEN| && i != j
    ensures WRITTEN[i] != [] && Diverge(WRITTEN[i], WRITTEN[j])
  {
    var (p, q) := (WRITTEN[i], WRITTEN[j]);
    if p[0] != q[0] {
      DivergeAt(p, q, 0);
    } else if p[1] != q[1] {
      DivergeAt(p, q, 1);
    } else {
      DivergeAt(p, q, 2);
    }
  }

  /** Reading one written path after writing another. */
  lemma Apart(m: Tree, i: nat, v: Json)
    requires i < |WRITTEN|
    ensures GetAt(SetAt(m, WRITTEN[i], v), WRITTEN[i]) == Some(v)
    ensures forall j :: 0 <= j < |WRITTEN| && j != i ==> GetAt(SetAt(m, WRITTEN[i], v), WRITTEN[j]) == GetAt(m, WRITTEN[j])
  {
    GetAfterSet(m, WRITTEN[i], v);
    forall j | 0 <= j < |WRITTEN| && j != i
      ensures GetAt(SetAt(m, WRITTEN[i], v), WRITTEN[j]) == GetAt(m, WRITTEN[j])
    {
      WrittenPathsDiverge(i, j);
      WrittenPathsDiverge(j, i);
      SetFrame(m, WRITTEN[i], v, WRITTEN[j]);
    }
  }

  ghost predicate Infrastructure(c: Tree) {
    && GetAt(c, MODE) == Some(Str("local"))
    && GetAt(c, BIND) == Some(Str("lan"))
    && GetAt(c, PORT) == Some(Num(18789.0))
    && GetAt(c, UI_ENABLED) == Some(Bool(true))
  }

  lemma InfrastructureSet(c: Tree)
    ensures var r := EnforceInfrastructureKeys(c);
            && Infrastructure(r)
            && GetAt(r, TRUSTED) == GetAt(c, TRUSTED)
            && GetAt(r, UI_ORIGINS) == GetAt(c, UI_ORIGINS)
  {
    assert MODE == WRITTEN[0] && BIND == WRITTEN[1] && PORT == WRITTEN[2] && TRUSTED == WRITTEN[4];
    assert UI_ENABLED == WRITTEN[5] && UI_ORIGINS == WRITTEN[6];
    var c1 := SetAt(c, MODE, Str("local"));
    Apart(c, 0, Str("local"));
    var c2 := SetAt(c1, BIND, Str("lan"));
    Apart(c1, 1, Str("lan"));
    var c3 := SetAt(c2, PORT, Num(18789.0));
    Apart(c2, 2, Num(18789.0));
    Apart(c3, 5, Bool(true));
  }

  /** What the gateway steps leave, with the two lists spelled out. */
  ghost predicate GatewayDone(c: Tree, inp: Inputs, proxies: seq<string>, origins: seq<string>) {
    && Infrastructure(c)
    && GetAt(c, AUTH) == Some(AuthMode(inp))
    && GetAt(c, UI_NO_DEVICE_AUTH).None?
    && GetAt(c, CHECK_ON_START) == Some(Bool(false))
    && StringsAt(c, TRUSTED) == proxies
    && StringsAt(c, UI_ORIGINS) == origins
  }

  lemma TrustedSet(c: Tree)
    requires Infrastructure(c)
    ensures var r := DisableUpdateCheck(EnforceTrustedProxies(c));
            && Infrastructure(r)
            && StringsAt(r, TRUSTED) == TrustedList(c)
            && GetAt(r, CHECK_ON_START) == Some(Bool(false))
            && GetAt(r, UI_ORIGINS) == GetAt(c, UI_ORIGINS)
  {
    assert MODE == WRITTEN[0] && BIND == WRITTEN[1] && PORT == WRITTEN[2] && TRUSTED == WRITTEN[4];
    assert UI_ENABLED == WRITTEN[5] && UI_ORIGINS == WRITTEN[6] && CHECK_ON_START == WRITTEN[8];
    Apart(c, 4, StringArr(TrustedList(c)));
    StringArrRoundTrip(TrustedList(c));
    Apart(EnforceTrustedProxies(c), 8, Bool(false));
  }

  /** Trusted proxies, update check and personality: before the route host is injected. */
  lemma ProxiesSet(c: Tree, inp: Inputs)
    requires Infrastructure(c)
    ensures var r := SkipDefaultPersonality(DisableUpdateCheck(EnforceTrustedProxies(c)), inp);
            && Infrastructure(r)
            && StringsAt(r, TRUSTED) == TrustedList(c)
            && GetAt(r, CHECK_ON_START) == Some(Bool(false))
            && GetAt(r, UI_ORIGINS) == GetAt(c, UI_ORIGINS)
  {
    var c2 := DisableUpdateCheck(EnforceTrustedProxies(c));
    TrustedSet(c);
    var skip := ["agents", "defaults", "skipOptionalBootstrapFiles"];
    SetKeeps(c2, skip, StringArr(["SOUL.md", "IDENTITY.md"]), {"agents"});
    var r := SkipDefaultPersonality(c2, inp);
    assert Keeps(c2, r, {"agents"});
    SameHead(c2, r, MODE);
    SameHead(c2, r, BIND);
    SameHead(c2, r, PORT);
    SameHead(c2, r, TRUSTED);
    SameHead(c2, r, UI_ENABLED);
    SameHead(c2, r, UI_ORIGINS);
    SameHead(c2, r, CHECK_ON_START);
  }

  lemma AuthSet(c: Tree, inp: Inputs)
    ensures var r := InjectAuthMode(c, inp);
            && GetAt(r, AUTH) == Some(AuthMode(inp))
            && GetAt(r, UI_NO_DEVICE_AUTH).None?
            && (Infrastructure(c) ==> Infrastructure(r))
            && GetAt(r, CHECK_ON_START) == GetAt(c, CHECK_ON_START)
            && GetAt(r, TRUSTED) == GetAt(c, TRUSTED)
            && GetAt(r, UI_ORIGINS) == GetAt(c, UI_ORIGINS)
  {
    assert MODE == WRITTEN[0] && BIND == WRITTEN[1] && PORT == WRITTEN[2] && AUTH == WRITTEN[3] && TRUSTED == WRITTEN[4];
    assert UI_ENABLED == WRITTEN[5] && UI_ORIGINS == WRITTEN[6] && UI_NO_DEVICE_AUTH == WRITTEN[7] && CHECK_ON_START == WRITTEN[8];
    Apart(c, 3, AuthMode(inp));
    var c1 := SetAt(c, AUTH, AuthMode(inp));
    GetAfterDelete(c1, UI_NO_DEVICE_AUTH);
    forall j | 0 <= j < |WRITTEN| && j != 7
      ensures GetAt(DeleteAt(c1, UI_NO_DEVICE_AUTH), WRITTEN[j]) == GetAt(c1, WRITTEN[j])
    {
      WrittenPathsDiverge(7, j);
      WrittenPathsDiverge(j, 7);
      DeleteFrame(c1, UI_NO_DEVICE_AUTH, WRITTEN[j]);
    }
  }

  lemma OriginsSet(c: Tree, inp: Inputs)
    ensures var r := InjectRouteHost(c, inp);
            && StringsAt(r, UI_ORIGINS) == OriginList(c, inp)
            && (Infrastructure(c) ==> Infrastructure(r))
            && GetAt(r, CHECK_ON_START) == GetAt(c, CHECK_ON_START)
            && GetAt(r, TRUSTED) == GetAt(c, TRUSTED)
  {
    assert MODE == WRITTEN[0] && BIND == WRITTEN[1] && PORT == WRITTEN[2] && TRUSTED == WRITTEN[4];
    assert UI_ENABLED == WRITTEN[5] && UI_ORIGINS == WRITTEN[6] && CHECK_ON_START == WRITTEN[8];
    Apart(c, 6, StringArr(OriginList(c, inp)));
    StringArrRoundTrip(OriginList(c, inp));
  }

  lemma GatewayStepsDone(c: Tree, inp: Inputs)
    ensures GatewayDone(GatewaySteps(c, inp), inp, TrustedList(c), OriginList(c, inp))
  {
    var c1 := EnforceInfrastructureKeys(c);
    InfrastructureSet(c);
    var c2 := SkipDefaultPersonality(DisableUpdateCheck(EnforceTrustedProxies(c1)), inp);
    ProxiesSet(c1, inp);
    OriginsSet(c2, inp);
    AuthSet(InjectRouteHost(c2, inp), inp);
  }

  lemma GatewayStepsKeep(c: Tree, inp: Inputs, owned: set<string>)
    requires "gateway" in owned && "update" in owned && "agents" in owned
    ensures Keeps(c, GatewaySteps(c, inp), owned)
  {
    var c1 := EnforceInfrastructureKeys(c);
    InfrastructureKeeps(c, owned);
    var c2 := EnforceTrustedProxies(c1);
    SetKeeps(c1, TRUSTED, StringArr(TrustedList(c1)), owned);
    var c3 := DisableUpdateCheck(c2);
    SetKeeps(c2, CHECK_ON_START, Bool(false), owned);
    var c4 := SkipDefaultPersonality(c3, inp);
    SetKeeps(c3, ["agents", "defaults", "skipOptionalBootstrapFiles"], StringArr(["SOUL.md", "IDENTITY.md"]), owned);
    var c5 := InjectRouteHost(c4, inp);
    SetKeeps(c4, UI_ORIGINS, StringArr(OriginList(c4, inp)), owned);
    SetKeeps(c5, AUTH, AuthMode(inp), owned);
    SetKeeps(SetAt(c5, AUTH, AuthMode(inp)), UI_NO_DEVICE_AUTH, Null, owned);
  }

  lemma InfrastructureKeeps(c: Tree, owned: set<string>)
    requires "gateway" in owned
    ensures Keeps(c, EnforceInfrastructureKeys(c), owned)
  {
    var c1 := SetAt(c, MODE, Str("local"));
    SetKeeps(c, MODE, Str("local"), owned);
    var c2 := SetAt(c1, BIND, Str("lan"));
    SetKeeps(c1, BIND, Str("lan"), owned);
    var c3 := SetAt(c2, PORT, Num(18789.0));
    SetKeeps(c2, PORT, Num(18789.0), owned);
    SetKeeps(c3, UI_ENABLED, Bool(true), owned);
  }

  /******* The whole pipeline *******/

  /** String entries of a user list survive the merge with any template. */
  lemma UserStringsSurviveMerge(template: Tree, user: Tree, q: seq<string>, s: string)
    requires q != [] && s in StringsAt(user, q)
    ensures s in StringsAt(DeepMerge(template, user), q)
  {
    MergeKeepsOverrideLeaf(template, user, q);
  }

  ghost predicate AlwaysWins(template: Tree, user: Tree, inp: Inputs, r: Tree) {
    && Infrastructure(r)
    && GetAt(r, AUTH) == Some(AuthMode(inp))
    && GetAt(r, UI_NO_DEVICE_AUTH).None?
    && GetAt(r, CHECK_ON_START) == Some(Bool(false))
    && (forall s :: s in StringsAt(user, TRUSTED) ==> s in StringsAt(r, TRUSTED))
    && "10.0.0.0/8" in StringsAt(r, TRUSTED) && "172.16.0.0/12" in StringsAt(r, TRUSTED)
    && (forall s :: s in StringsAt(user, UI_ORIGINS) ==> s in StringsAt(r, UI_ORIGINS))
    && RouteOrigin(inp) in StringsAt(r, UI_ORIGINS)
    && Keeps(DeepMerge(template, user), r, OWNED)
  }

  /**
   For every template, every user tree and every Claw: if enrichment succeeds, the result
   holds the always-win gateway, auth and update values, has no device-auth bypass, trusts
   and allows everything the user listed as a string plus the operator's own entries, and
   equals the plain merge at every top-level key no step owns.
   */
  lemma EnrichedConfig(template: Tree, user: Tree, inp: Inputs, owns: bool, allow: set<string> -> seq<string>)
    ensures Enrich(template, user, inp, owns, allow).Ok? ==>
            AlwaysWins(template, user, inp, Enrich(template, user, inp, owns, allow).value)
  {
    if Enrich(template, user, inp, owns, allow).Ok? {
      var merged := DeepMerge(template, user);
      var c := GatewaySteps(merged, inp);
      var r := Enrich(template, user, inp, owns, allow).value;
      GatewayStepsDone(merged, inp);
      GatewayStepsKeep(merged, inp, OWNED);
      LaterStepsKeep(c, inp, owns, allow, r);
      GatewayFrame(c, r, inp, TrustedList(merged), OriginList(merged, inp));
      forall s | s in StringsAt(user, TRUSTED) ensures s in StringsAt(r, TRUSTED) {
        UserStringsSurviveMerge(template, user, TRUSTED, s);
      }
      forall s | s in StringsAt(user, UI_ORIGINS) ensures s in StringsAt(r, UI_ORIGINS) {
        UserStringsSurviveMerge(template, user, UI_ORIGINS, s);
      }
    }
  }

  lemma GatewayFrame(c: Tree, r: Tree, inp: Inputs, proxies: seq<string>, origins: seq<string>)
    requires GatewayDone(c, inp, proxies, origins) && Keeps(c, r, LATER)
    ensures GatewayDone(r, inp, proxies, origins)
  {
    assert "gateway" !in LATER && "update" !in LATER;
    forall j | 0 <= j < |WRITTEN| ensures GetAt(c, WRITTEN[j]) == GetAt(r, WRITTEN[j]) {
      assert WRITTEN[j][0] == "gateway" || WRITTEN[j][0] == "update";
      SameHead(c, r, WRITTEN[j]);
    }
    assert MODE == WRITTEN[0] && BIND == WRITTEN[1] && PORT == WRITTEN[2] && AUTH == WRITTEN[3] && TRUSTED == WRITTEN[4];
    assert UI_ENABLED == WRITTEN[5] && UI_ORIGINS == WRITTEN[6] && UI_NO_DEVICE_AUTH == WRITTEN[7] && CHECK_ON_START == WRITTEN[8];
  }
}
