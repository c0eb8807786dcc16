/** The enrichment as it runs: one config, rewritten in place statement by statement. */
module ConfigEnrichment {
  import opened Basics
  import opened JsonTree
  import opened ConfigPipeline
  import opened ConfigTheorems
  import opened ConfigContents
  import opened FinalConfig

  /** The entries of a map with others laid over it while the keys in `rest` are still to come. */
  ghost predicate Overlaid(base: Tree, over: Tree, rest: set<string>, r: Tree) {
    && r.Keys == base.Keys + (over.Keys - rest)
    && forall k | k in r :: r[k] == if k in over && k !in rest then over[k] else base[k]
  }

  class Enrichment {
    var config: Tree

    constructor (template: Tree, user: Tree)
      ensures config == DeepMerge(template, user)
    {
      new;
      var merged := MergeByKeys(template, user);
      config := merged;
    }

    method SetNestedValue(path: seq<string>, v: Json)
      requires path != []
      modifies this
      ensures config == SetAt(old(config), path, v)
    {
      config := SetAt(config, path, v);
    }

    /** `setDefault` below nested maps: a write only where nothing is there. */
    method SetDefault(path: seq<string>, v: Json)
      requires path != []
      modifies this
      ensures config == SetDefaultAt(old(config), path, v)
    {
      DefaultIsWriteOrNothing(config, path, v);
      if GetAt(config, path).None? {
        SetNestedValue(path, v);
      }
    }

    /** Infrastructure keys, trusted proxies, update check, personality, origins and auth mode. */
    method GatewayPhase(inp: Inputs)
      modifies this
      ensures config == GatewaySteps(old(config), inp) && GatewayLiterals(config, inp)
    {
      GatewayStepsLiterals(config, inp);
      SetNestedValue(MODE, Str("local"));
      SetNestedValue(BIND, Str("lan"));
      SetNestedValue(PORT, Num(18789.0));
      SetNestedValue(UI_ENABLED, Bool(true));
      var proxies := AppendIfMissing(StringsAt(config, TRUSTED), "10.0.0.0/8");
      proxies := AppendIfMissing(proxies, "172.16.0.0/12");
      SetNestedValue(TRUSTED, StringArr(proxies));
      SetNestedValue(CHECK_ON_START, Bool(false));
      if !inp.userManaged {
        SetNestedValue(["agents", "defaults", "skipOptionalBootstrapFiles"], StringArr(["SOUL.md", "IDENTITY.md"]));
      }
      var origins := AppendIfMissing(StringsAt(config, UI_ORIGINS), RouteOrigin(inp));
      SetNestedValue(UI_ORIGINS, StringArr(origins));
      SetNestedValue(AUTH, AuthMode(inp));
      config := DeleteAt(config, UI_NO_DEVICE_AUTH);
    }

    method AddProviderPlugins(ids: seq<string>)
      modifies this
      ensures config == InjectProviderPlugins(old(config), ids)
    {
      for i := 0 to |ids|
        invariant config == InjectProviderPlugins(old(config), ids[..i])
      {
        assert ids[..i + 1][..i] == ids[..i];
        SetDefault(["plugins", "entries", ids[i]], ENABLED);
      }
      assert ids[..|ids|] == ids;
    }

    /** Catalog entries for missing keys, in any order; then the policy, the primary model and the fallbacks. */
    method AddModelCatalog(inp: Inputs, allow: set<string> -> seq<string>)
      modifies this
      ensures config == InjectModelCatalog(old(config), inp, allow)
    {
      if inp.catalog == map[] {
        return;
      }
      ghost var c0 := config;
      var models := FillGaps(inp.catalog, Child(Defaults(config), "models"));
      SetInDefaults(config, "models", Obj(models));
      SetNestedValue(["agents", "defaults", "models"], Obj(models));
      ghost var d := Defaults(c0)["models" := Obj(models)];
      SetDefaultsShape(c0, d);
      var defaults := Defaults(config);
      if !("modelPolicy" in defaults && defaults["modelPolicy"].Obj?) {
        var policy := Obj(map["allow" := StringArr(allow(models.Keys))]);
        SetDefaultsKey("modelPolicy", policy, c0, d);
        d := d["modelPolicy" := policy];
      }
      var model := PrimaryAndFallbacks(Child(Defaults(config), "model"), inp);
      SetDefaultsKey("model", Obj(model), c0, d);
    }

    /** One more setting of the defaults. */
    method SetDefaultsKey(key: string, v: Json, ghost c0: Tree, ghost d: Tree)
      requires config == SetAt(c0, DEFAULTS, Obj(d))
      modifies this
      ensures config == SetAt(c0, DEFAULTS, Obj(d[key := v])) && Defaults(config) == d[key := v]
    {
      SetOneDefault(c0, d, key, v);
      SetNestedValue(["agents", "defaults", key], v);
    }

    method PrimaryAndFallbacks(model0: Tree, inp: Inputs) returns (model: Tree)
      ensures model == ModelSettings(model0, inp)
    {
      model := model0;
      if !("primary" in model && model["primary"].Str? && model["primary"].s != "") {
        model := model["primary" := Str(inp.primary)];
      }
      if "fallbacks" !in model && inp.fallbacks != [] {
        model := model["fallbacks" := StringArr(inp.fallbacks)];
      }
    }

    method FillGaps(catalog: Tree, models: Tree) returns (r: Tree)
      ensures r == catalog + models
    {
      r := models;
      var rest := catalog.Keys;
      while rest != {}
        invariant rest <= catalog.Keys
        invariant r == (map k | k in catalog.Keys - rest :: catalog[k]) + models
        decreases |rest|
      {
        var k :| k in rest;
        if k !in r {
          r := r[k := catalog[k]];
        }
        rest := rest - {k};
      }
    }

    method AddMemorySearch(inp: Inputs)
      modifies this
      ensures config == InjectMemorySearch(old(config), inp)
    {
      if HasMemorySearch(config) {
        return;
      }
      if inp.embedding.Some? {
        SetNestedValue(["memory", "search", "provider"], Str(inp.embedding.value));
        return;
      }
      SetNestedValue(["memory", "search", "enabled"], Bool(false));
    }

    method AddMemoryStack(inp: Inputs, owns: bool)
      modifies this
      ensures config == InjectMemoryStack(old(config), inp, owns)
    {
      if (inp.dreaming.None? && inp.wiki.None?) || UserChoseContextEngine(config) {
        return;
      }
      if inp.embedding.Some? && !owns {
        SetNestedValue(["memory", "search", "enabled"], Bool(true));
      }
      if inp.dreaming.Some? {
        AddDreaming(inp.dreaming.value);
      }
      if inp.wiki.Some? {
        AddWiki(inp.wiki.value);
      }
    }

    method AddDreaming(d: Dreaming)
      modifies this
      ensures config == InjectDreaming(old(config), d)
    {
      SetDefault(Entry("memory-core", ["config", "dreaming", "enabled"]), Bool(true));
      if d.frequency != "" {
        SetNestedValue(Entry("memory-core", ["config", "dreaming", "frequency"]), Str(d.frequency));
      }
      if d.model != "" {
        SetNestedValue(Entry("memory-core", ["config", "dreaming", "model"]), Str(d.model));
      }
    }

    method AddWiki(w: Wiki)
      modifies this
      ensures config == InjectWiki(old(config), w)
    {
      SetDefault(WikiPath(["enabled"]), Bool(true));
      if w.mode != "" {
        SetNestedValue(WikiPath(["config", "vaultMode"]), Str(w.mode));
      } else {
        SetDefault(WikiPath(["config", "vaultMode"]), Str("bridge"));
      }
      SetDefault(WikiPath(["config", "vault", "path"]), Str("~/.openclaw/workspace/wiki/main"));
      if GetAt(config, WikiPath(["config", "vaultMode"])) == Some(Str("bridge")) {
        SwitchOn(WikiPath(["config", "bridge"]), BRIDGE_SWITCHES);
      }
      SetDefault(WikiPath(["config", "search", "backend"]), Str("shared"));
      SetDefault(WikiPath(["config", "search", "corpus"]), Str("all"));
      SwitchOn(WikiPath(["config", "render"]), RENDER_SWITCHES);
    }

    method SwitchOn(at: seq<string>, keys: seq<string>)
      requires at != []
      modifies this
      ensures config == SeedTrue(old(config), at, keys)
    {
      for i := 0 to |keys|
        invariant config == SeedTrue(old(config), at, keys[..i])
      {
        assert keys[..i + 1][..i] == keys[..i];
        SetDefault(at + [keys[i]], Bool(true));
      }
      assert keys[..|keys|] == keys;
    }

    /** Providers, their plugins, the catalog and the memory settings. */
    method ProviderPhase(inp: Inputs, owns: bool, allow: set<string> -> seq<string>, providers: Tree)
      modifies this
      ensures config == ProviderSteps(old(config), inp, owns, allow, providers)
    {
      SetNestedValue(["models", "providers"], Obj(providers));
      AddProviderPlugins(inp.vertexPlugins);
      AddModelCatalog(inp, allow);
      AddMemorySearch(inp);
      AddMemoryStack(inp, owns);
    }

    /** An enabled entry for every name, over whatever is there. */
    method Enable(before: Tree, names: set<string>, ghost plugins: Tree) returns (entries: Tree)
      requires plugins == map k | k in names :: ENABLED
      ensures entries == before + plugins
    {
      entries := before;
      var rest := names;
      while rest != {}
        invariant rest <= names
        invariant Overlaid(before, plugins, rest, entries)
        decreases |rest|
      {
        var k :| k in rest;
        entries := entries[k := ENABLED];
        rest := rest - {k};
      }
    }

    method AddChannels(channels: Tree)
      modifies this
      ensures config == InjectChannels(old(config), channels)
    {
      if channels == map[] {
        return;
      }
      config := config["channels" := Obj(channels)];
      ghost var plugins := map k | k in channels :: ENABLED;
      var entries := Enable(Child(Child(config, "plugins"), "entries"), channels.Keys, plugins);
      SetNestedValue(["plugins", "entries"], Obj(entries));
    }

    method AddWebSearch(inp: Inputs) returns (failure: Option<Failure>)
      modifies this
      ensures match InjectWebSearch(old(config), inp)
              case Ok(c) => failure == None && config == c
              case Err(f) => failure == Some(f)
    {
      if inp.webSearch.Some? {
        var ws := inp.webSearch.value;
        SetNestedValue(["tools", "web", "search"], Obj(map["enabled" := Bool(true), "provider" := Str(ws.provider)]));
        if ws.config.None? {
          return Some(InvalidWebSearch);
        }
        if ws.config.value != map[] {
          SetNestedValue(Entry(ws.pluginID, ["config", "webSearch"]), Obj(ws.config.value));
        }
      }
      if inp.webFetch.Some? {
        SetNestedValue(["tools", "web", "fetch"], Obj(map["enabled" := Bool(inp.webFetch.value)]));
      }
      return None;
    }

    /** Channels, MCP servers and web tools; the first failure ends the phase. */
    method ToolPhase(inp: Inputs) returns (failure: Option<Failure>)
      modifies this
      ensures match ToolSteps(old(config), inp)
              case Ok(c) => failure == None && config == c
              case Err(f) => failure == Some(f)
    {
      if inp.channels.None? {
        return Some(InvalidChannels);
      }
      AddChannels(inp.channels.value);
      if inp.mcpServers != map[] {
        config := config["mcp" := Obj(map["servers" := Obj(inp.mcpServers)])];
      }
      failure := AddWebSearch(inp);
    }

    /** Diagnostics, the bootstrap switch and the bootstrap hook. */
    method FinalPhase(inp: Inputs)
      modifies this
      ensures config == FinalSteps(old(config), inp)
    {
      AddDiagnostics(inp);
      if inp.skipBootstrap {
        SetNestedValue(["agents", "defaults", "skipBootstrap"], Bool(true));
      }
      if !inp.userManaged && GetAt(config, HOOK).None? {
        SetNestedValue(["hooks", "internal", "enabled"], Bool(true));
        SetNestedValue(HOOK, Obj(map["enabled" := Bool(true), "paths" := StringArr([".operator/BOOTSTRAP.md"])]));
      }
    }

    method AddDiagnostics(inp: Inputs)
      modifies this
      ensures config == InjectDiagnostics(old(config), inp)
    {
      if !inp.traces && !inp.logs && !inp.metrics {
        return;
      }
      SetNestedValue(["diagnostics", "otel", "enabled"], Bool(true));
      if inp.traces {
        SetNestedValue(["diagnostics", "otel", "traces"], Bool(true));
      }
      if inp.logs {
        SetNestedValue(["diagnostics", "otel", "logs"], Bool(true));
      }
      if inp.metrics {
        SetNestedValue(["diagnostics", "otel", "metrics"], Bool(true));
      }
      if inp.otlpEndpoint != "" {
        SetDefault(["diagnostics", "otel", "endpoint"], Str(inp.otlpEndpoint));
      }
    }

    /**
     Runs every step.  On success the config is the pipeline's result, so the always-win
     values hold, keys no step owns are the merge's, the operator's own keys hold what the
     operator set, the user's memory search stands and the user's models are all kept; on a
     failure the config is abandoned.
     */
    method Run(inp: Inputs, owns: bool, allow: set<string> -> seq<string>, ghost template: Tree, ghost user: Tree)
      returns (failure: Option<Failure>)
      requires config == DeepMerge(template, user)
      modifies this
      ensures match Enrich(template, user, inp, owns, allow)
              case Ok(c) => failure == None && config == c
              case Err(f) => failure == Some(f)
      ensures failure == None ==>
              && inp.channels.Some? && inp.providers.Some?
              && AlwaysWins(template, user, inp, config)
              && OwnedKeys(DeepMerge(template, user), config, inp)
              && MemoryKept(DeepMerge(template, user), config, owns)
              && ModelsOf(config) == inp.catalog + ModelsOf(DeepMerge(template, user))
      ensures failure == None ==>
              && GatewayLiterals(config, inp) && ToolLiterals(DeepMerge(template, user), config, inp)
              && AgentLiterals(DeepMerge(template, user), config, inp, allow)
              && (HasMemorySearch(DeepMerge(template, user)) || SearchLiterals(config, inp))
    {
      LiteralValues(template, user, inp, owns, allow);
      EnrichedConfig(template, user, inp, owns, allow);
      OperatorOwnedKeys(template, user, inp, owns, allow);
      UserMemorySearchWins(template, user, inp, owns, allow);
      CatalogFillsGaps(template, user, inp, owns, allow);
      failure := RunSteps(inp, owns, allow, template, user);
    }

    method RunSteps(inp: Inputs, owns: bool, allow: set<string> -> seq<string>, ghost template: Tree, ghost user: Tree)
      returns (failure: Option<Failure>)
      requires config == DeepMerge(template, user)
      modifies this
      ensures match Enrich(template, user, inp, owns, allow)
              case Ok(c) => failure == None && config == c
              case Err(f) => failure == Some(f)
    {
      GatewayPhase(inp);
      if inp.providers.None? {
        return Some(DuplicateProvider);
      }
      ProviderPhase(inp, owns, allow, inp.providers.value);
      failure := ToolPhase(inp);
      if failure.None? {
        FinalPhase(inp);
      }
    }
  }
}
