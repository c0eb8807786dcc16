/** Settings of one plugin, followed through the whole pipeline. */
module PluginSettings {
  import opened Basics
  import opened JsonTree
  import opened ConfigPipeline
  import opened ConfigTheorems
  import opened ConfigContents

  /** A setting of a plugin's entry that no step writes except the memory layers: not config.webSearch. */
  predicate PluginSetting(q: seq<string>, plugin: string) {
    && |q| >= 4 && q[0] == "plugins" && q[1] == "entries" && q[2] == plugin
    && (q[3] == "config" ==> |q| >= 5 && q[4] != "webSearch")
  }

  /** The plugin is neither a channel nor one the providers switch on. */
  predicate OwnPlugin(inp: Inputs, plugin: string) {
    inp.channels.Some? && plugin !in inp.channels.value && plugin !in inp.vertexPlugins
  }

  /******* Before the memory layers *******/

  lemma {:induction false} PluginsLeave(c: Tree, ids: seq<string>, q: seq<string>, plugin: string)
    requires PluginSetting(q, plugin) && plugin !in ids
    ensures GetAt(InjectProviderPlugins(c, ids), q) == GetAt(c, q)
    decreases |ids|
  {
    if ids != [] {
      var init, p := ids[..|ids| - 1], ["plugins", "entries", ids[|ids| - 1]];
      PluginsLeave(c, init, q, plugin);
      DivergeAt(p, q, 2);
      DefaultFrame(InjectProviderPlugins(c, init), p, ENABLED, q);
    }
  }

  lemma GatewayKeepsKey(c: Tree, inp: Inputs, k: string)
    requires k !in GATEWAY_KEYS
    ensures Lookup(GatewaySteps(c, inp), k) == Lookup(c, k)
  {
    GatewayStepsKeep(c, inp, GATEWAY_KEYS);
  }

  lemma ProvidersKeepKey(c: Tree, providers: Tree, k: string)
    requires k != "models"
    ensures Lookup(InjectProviders(c, providers), k) == Lookup(c, k)
  {
    SetKeeps(c, ["models", "providers"], Obj(providers), {"models"});
  }

  lemma FinalKeepsKey(c: Tree, inp: Inputs, k: string)
    requires k !in FINAL_KEYS
    ensures Lookup(FinalSteps(c, inp), k) == Lookup(c, k)
  {
    FinalStepsKeep(c, inp, FINAL_KEYS);
  }

  lemma PluginsUntouchedFirst(c: Tree, inp: Inputs, providers: Tree)
    ensures Lookup(InjectProviders(GatewaySteps(c, inp), providers), "plugins") == Lookup(c, "plugins")
  {
    GatewayKeepsKey(c, inp, "plugins");
    ProvidersKeepKey(GatewaySteps(c, inp), providers, "plugins");
  }

  lemma PluginsUntouchedNext(c: Tree, inp: Inputs, allow: set<string> -> seq<string>)
    ensures Lookup(InjectMemorySearch(InjectModelCatalog(c, inp, allow), inp), "plugins") == Lookup(c, "plugins")
  {
    CatalogKeeps(c, inp, allow, {"agents"});
    MemorySearchKeeps(InjectModelCatalog(c, inp, allow), inp, {"memory"});
  }

  /** The config just before the memory layers. */
  function BeforeStack(c: Tree, inp: Inputs, allow: set<string> -> seq<string>, providers: Tree): Tree {
    var p := InjectProviderPlugins(InjectProviders(GatewaySteps(c, inp), providers), inp.vertexPlugins);
    InjectMemorySearch(InjectModelCatalog(p, inp, allow), inp)
  }

  lemma BeforeLayers(c: Tree, inp: Inputs, allow: set<string> -> seq<string>, providers: Tree, q: seq<string>)
    requires q != [] && q[0] == "plugins"
    requires var p := InjectProviders(GatewaySteps(c, inp), providers); GetAt(InjectProviderPlugins(p, inp.vertexPlugins), q) == GetAt(p, q)
    ensures GetAt(BeforeStack(c, inp, allow, providers), q) == GetAt(c, q)
  {
    var p := InjectProviders(GatewaySteps(c, inp), providers);
    PluginsUntouchedFirst(c, inp, providers);
    SameHead(c, p, q);
    var v := InjectProviderPlugins(p, inp.vertexPlugins);
    PluginsUntouchedNext(v, inp, allow);
    SameHead(v, BeforeStack(c, inp, allow, providers), q);
  }

  /******* After the memory layers *******/

  lemma ChannelsLeave(c: Tree, channels: Tree, q: seq<string>, plugin: string)
    requires PluginSetting(q, plugin) && plugin !in channels
    ensures GetAt(InjectChannels(c, channels), q) == GetAt(c, q)
  {
    if channels != map[] {
      var c1 := c["channels" := Obj(channels)];
      var plugins := map k | k in channels :: ENABLED;
      var entries := Child(Child(c1, "plugins"), "entries");
      SameHead(c, c1, q);
      assert Lookup(entries + plugins, plugin) == Lookup(entries, plugin);
      assert q[2..][0] == plugin;
      SameHead(entries + plugins, entries, q[2..]);
    }
  }

  lemma WebSearchLeaves(c: Tree, inp: Inputs, q: seq<string>, plugin: string)
    requires PluginSetting(q, plugin) && InjectWebSearch(c, inp).Ok?
    ensures GetAt(InjectWebSearch(c, inp).value, q) == GetAt(c, q)
  {
    var fetch := ["tools", "web", "fetch"];
    var fetched := if inp.webFetch.Some? then Obj(map["enabled" := Bool(inp.webFetch.value)]) else Null;
    DivergeAt(fetch, q, 0);
    if inp.webSearch.None? {
      SetFrame(c, fetch, fetched, q);
    } else {
      var ws := inp.webSearch.value;
      var entry := Obj(map["enabled" := Bool(true), "provider" := Str(ws.provider)]);
      var c1 := SetAt(c, ["tools", "web", "search"], entry);
      DivergeAt(["tools", "web", "search"], q, 0);
      SetFrame(c, ["tools", "web", "search"], entry, q);
      var path := Entry(ws.pluginID, ["config", "webSearch"]);
      var c2 := if ws.config.value == map[] then c1 else SetAt(c1, path, Obj(ws.config.value));
      DivergeAt(path, q, if ws.pluginID != plugin then 2 else if q[3] != "config" then 3 else 4);
      SetFrame(c1, path, Obj(ws.config.value), q);
      SetFrame(c2, fetch, fetched, q);
    }
  }

  lemma ToolsLeave(c: Tree, inp: Inputs, q: seq<string>, plugin: string)
    requires PluginSetting(q, plugin) && inp.channels.Some? && plugin !in inp.channels.value && ToolSteps(c, inp).Ok?
    ensures GetAt(ToolSteps(c, inp).value, q) == GetAt(c, q)
  {
    var c1 := InjectChannels(c, inp.channels.value);
    ChannelsLeave(c, inp.channels.value, q, plugin);
    var c2 := InjectMcpServers(c1, inp.mcpServers);
    McpKeeps(c1, inp.mcpServers, {"mcp"});
    SameHead(c1, c2, q);
    WebSearchLeaves(c2, inp, q, plugin);
  }

  lemma AfterLayers(c: Tree, inp: Inputs, q: seq<string>, plugin: string)
    requires PluginSetting(q, plugin) && inp.channels.Some? && plugin !in inp.channels.value && ToolSteps(c, inp).Ok?
    ensures GetAt(FinalSteps(ToolSteps(c, inp).value, inp), q) == GetAt(c, q)
  {
    ToolsLeave(c, inp, q, plugin);
    var t := ToolSteps(c, inp).value;
    FinalKeepsKey(t, inp, "plugins");
    SameHead(t, FinalSteps(t, inp), q);
  }

  /******* Around one layer *******/

  lemma SwitchesLeave(c: Tree, keys: seq<string>, at: seq<string>, q: seq<string>)
    requires |at| >= 3 && |q| >= 3 && at[2] != q[2]
    ensures GetAt(SeedTrue(c, at, keys), q) == GetAt(c, q)
  {
    SeedTrueFrame(c, at, keys, q);
  }

  lemma BridgeLeaves(c: Tree, q: seq<string>)
    requires |q| >= 3 && q[2] != "memory-wiki"
    ensures GetAt(SeedBridge(c), q) == GetAt(c, q)
  {
    SwitchesLeave(c, BRIDGE_SWITCHES, WikiPath(["config", "bridge"]), q);
  }

  lemma SearchSeedsLeave(c: Tree, q: seq<string>)
    requires |q| >= 3 && q[2] != "memory-wiki"
    ensures var c1 := SetDefaultAt(c, WikiPath(["config", "search", "backend"]), Str("shared"));
            GetAt(SetDefaultAt(c1, WikiPath(["config", "search", "corpus"]), Str("all")), q) == GetAt(c, q)
  {
    var backend, corpus := WikiPath(["config", "search", "backend"]), WikiPath(["config", "search", "corpus"]);
    DefaultFrame(c, backend, Str("shared"), q);
    DefaultFrame(SetDefaultAt(c, backend, Str("shared")), corpus, Str("all"), q);
  }

  lemma VaultLeaves(c: Tree, q: seq<string>)
    requires |q| >= 3 && q[2] != "memory-wiki"
    ensures GetAt(SeedVault(c), q) == GetAt(c, q)
  {
    var path, backend, corpus := WikiPath(["config", "vault", "path"]), WikiPath(["config", "search", "backend"]), WikiPath(["config", "search", "corpus"]);
    var c1 := SetDefaultAt(c, path, Str("~/.openclaw/workspace/wiki/main"));
    DefaultFrame(c, path, Str("~/.openclaw/workspace/wiki/main"), q);
    BridgeLeaves(c1, q);
    var c2 := SeedBridge(c1);
    SearchSeedsLeave(c2, q);
    SwitchesLeave(SetDefaultAt(SetDefaultAt(c2, backend, Str("shared")), corpus, Str("all")), RENDER_SWITCHES, WikiPath(["config", "render"]), q);
  }

  /** The wiki's settings are its own. */
  lemma WikiLeaves(c: Tree, w: Wiki, q: seq<string>)
    requires |q| >= 3 && q[2] != "memory-wiki"
    ensures GetAt(InjectWiki(c, w), q) == GetAt(c, q)
  {
    var on, mode := WikiPath(["enabled"]), WikiPath(["config", "vaultMode"]);
    DefaultFrame(c, on, Bool(true), q);
    var c1 := SetDefaultAt(c, on, Bool(true));
    SetFrame(c1, mode, Str(w.mode), q);
    DefaultFrame(c1, mode, Str("bridge"), q);
    VaultLeaves(if w.mode != "" then SetAt(c1, mode, Str(w.mode)) else SetDefaultAt(c1, mode, Str("bridge")), q);
  }

  /** Dreaming's settings are its own. */
  lemma DreamingLeaves(c: Tree, d: Dreaming, q: seq<string>)
    requires |q| >= 3 && q[2] != "memory-core"
    ensures GetAt(InjectDreaming(c, d), q) == GetAt(c, q)
  {
    var e, f, m := Layer("memory-core", "dreaming", "enabled"), Layer("memory-core", "dreaming", "frequency"), Layer("memory-core", "dreaming", "model");
    DreamingAsWrites(c, d, e, f, m);
    var c1 := SetDefaultAt(c, e, Bool(true));
    DefaultFrame(c, e, Bool(true), q);
    SetFrame(c1, f, Str(d.frequency), q);
    SetFrame(SetIf(c1, f, d.frequency), m, Str(d.model), q);
  }

  /** Where the layers are injected: one is asked for and the user chose no context engine. */
  predicate StackOn(c: Tree, inp: Inputs) {
    (inp.dreaming.Some? || inp.wiki.Some?) && GetAt(c, ["plugins", "slots", "contextEngine"]).None?
  }

  lemma {:induction false} SlotsUntouched(c: Tree, ids: seq<string>)
    ensures GetAt(InjectProviderPlugins(c, ids), ["plugins", "slots", "contextEngine"]) == GetAt(c, ["plugins", "slots", "contextEngine"])
    decreases |ids|
  {
    if ids != [] {
      var init, p, q := ids[..|ids| - 1], ["plugins", "entries", ids[|ids| - 1]], ["plugins", "slots", "contextEngine"];
      SlotsUntouched(c, init);
      DivergeAt(p, q, 1);
      DefaultFrame(InjectProviderPlugins(c, init), p, ENABLED, q);
    }
  }

  lemma SlotsBeforeLayers(c: Tree, inp: Inputs, allow: set<string> -> seq<string>, providers: Tree)
    ensures UserChoseContextEngine(BeforeStack(c, inp, allow, providers)) == UserChoseContextEngine(c)
  {
    var q := ["plugins", "slots", "contextEngine"];
    var p := InjectProviders(GatewaySteps(c, inp), providers);
    SlotsUntouched(p, inp.vertexPlugins);
    BeforeLayers(c, inp, allow, providers, q);
  }

  /** The stack with its first write done: only plugin settings follow. */
  function Layered(c: Tree, inp: Inputs): Tree {
    var c1 := if inp.dreaming.Some? then InjectDreaming(c, inp.dreaming.value) else c;
    if inp.wiki.Some? then InjectWiki(c1, inp.wiki.value) else c1
  }

  /** The config after the stack's write to memory search, if it makes one. */
  function StackBase(c: Tree, inp: Inputs, owns: bool): Tree {
    if inp.embedding.Some? && !owns then SetAt(c, ["memory", "search", "enabled"], Bool(true)) else c
  }

  lemma StackLayers(c: Tree, inp: Inputs, owns: bool)
    requires StackOn(c, inp)
    ensures InjectMemoryStack(c, inp, owns) == Layered(StackBase(c, inp, owns), inp)
  {
  }

  lemma StackBaseLeaves(c: Tree, inp: Inputs, owns: bool, q: seq<string>)
    requires q != [] && q[0] == "plugins"
    ensures GetAt(StackBase(c, inp, owns), q) == GetAt(c, q)
  {
    var p := ["memory", "search", "enabled"];
    DivergeAt(p, q, 0);
    SetFrame(c, p, Bool(true), q);
  }

  /******* In the final config *******/

  /** The memory layers turn this setting into a function of itself. */
  ghost predicate Settles(inp: Inputs, q: seq<string>, f: Option<Json> -> Option<Json>)
    requires q != []
  {
    forall c :: GetAt(Layered(c, inp), q) == f(GetAt(c, q))
  }

  /** From the merge to the final config a plugin's setting changes only in the memory layers. */
  lemma SettingInConfig(
      template: Tree, user: Tree, inp: Inputs, owns: bool, allow: set<string> -> seq<string>, r: Tree, q: seq<string>, plugin: string,
      f: Option<Json> -> Option<Json>)
    requires Enrich(template, user, inp, owns, allow) == Ok(r) && PluginSetting(q, plugin) && OwnPlugin(inp, plugin)
    requires StackOn(DeepMerge(template, user), inp) && Settles(inp, q, f)
    ensures GetAt(r, q) == f(GetAt(DeepMerge(template, user), q))
  {
    var merged := DeepMerge(template, user);
    PluginsLeave(InjectProviders(GatewaySteps(merged, inp), inp.providers.value), inp.vertexPlugins, q, plugin);
    BeforeLayers(merged, inp, allow, inp.providers.value, q);
    SlotsBeforeLayers(merged, inp, allow, inp.providers.value);
    var before := BeforeStack(merged, inp, allow, inp.providers.value);
    StackLayers(before, inp, owns);
    StackBaseLeaves(before, inp, owns, q);
    AfterLayers(InjectMemoryStack(before, inp, owns), inp, q, plugin);
  }

  /** A layer that is not asked for, and any layer beside a context engine of the user's, leaves its settings as merged. */
  lemma UnaskedStays(
      template: Tree, user: Tree, inp: Inputs, owns: bool, allow: set<string> -> seq<string>, r: Tree, q: seq<string>, plugin: string)
    requires Enrich(template, user, inp, owns, allow) == Ok(r) && PluginSetting(q, plugin) && OwnPlugin(inp, plugin)
    requires || GetAt(DeepMerge(template, user), ["plugins", "slots", "contextEngine"]).Some?
             || (plugin == "memory-wiki" && inp.wiki.None?) || (plugin == "memory-core" && inp.dreaming.None?)
             || plugin !in {"memory-wiki", "memory-core"}
    ensures GetAt(r, q) == GetAt(DeepMerge(template, user), q)
  {
    var merged := DeepMerge(template, user);
    if StackOn(merged, inp) {
      forall c ensures GetAt(Layered(c, inp), q) == GetAt(c, q) {
        LayersLeave(c, inp, q);
      }
      SettingInConfig(template, user, inp, owns, allow, r, q, plugin, v => v);
    } else {
      PluginsLeave(InjectProviders(GatewaySteps(merged, inp), inp.providers.value), inp.vertexPlugins, q, plugin);
      BeforeLayers(merged, inp, allow, inp.providers.value, q);
      SlotsBeforeLayers(merged, inp, allow, inp.providers.value);
      AfterLayers(BeforeStack(merged, inp, allow, inp.providers.value), inp, q, plugin);
    }
  }

  lemma LayersLeave(c: Tree, inp: Inputs, q: seq<string>)
    requires |q| >= 3 && q[0] == "plugins" && q[1] == "entries"
    requires q[2] == "memory-core" ==> inp.dreaming.None?
    requires q[2] == "memory-wiki" ==> inp.wiki.None?
    ensures GetAt(Layered(c, inp), q) == GetAt(c, q)
  {
    var c1 := if inp.dreaming.Some? then InjectDreaming(c, inp.dreaming.value) else c;
    if inp.dreaming.Some? {
      DreamingLeaves(c, inp.dreaming.value, q);
    }
    if inp.wiki.Some? {
      WikiLeaves(c1, inp.wiki.value, q);
    }
  }

  lemma LayerSettings(key: string)
    ensures PluginSetting(Layer("memory-core", "dreaming", key), "memory-core")
    ensures PluginSetting(VAULT_MODE, "memory-wiki")
  {
    assert "vaultMode"[0] != "webSearch"[0] && "dreaming"[0] != "webSearch"[0];
  }

  /** What dreaming makes of one of its settings. */
  function DreamingValue(d: Dreaming, key: string): Option<Json> -> Option<Json> {
    v => if key == "enabled" then OrElse(v, Bool(true)) else if key == "frequency" then IfSet(d.frequency, v) else IfSet(d.model, v)
  }

  lemma DreamingSetting(inp: Inputs, key: string)
    requires inp.dreaming.Some? && key in {"enabled", "frequency", "model"}
    ensures Settles(inp, Layer("memory-core", "dreaming", key), DreamingValue(inp.dreaming.value, key))
  {
    var q := Layer("memory-core", "dreaming", key);
    forall c ensures GetAt(Layered(c, inp), q) == DreamingValue(inp.dreaming.value, key)(GetAt(c, q)) {
      DreamingSettles(c, inp.dreaming.value);
      if inp.wiki.Some? {
        WikiLeaves(InjectDreaming(c, inp.dreaming.value), inp.wiki.value, q);
      }
    }
  }

  /**
   In the final config dreaming's frequency and model are the spec's where given and the
   user's otherwise, and it is enabled unless the user says otherwise.
   */
  lemma DreamingInConfig(
      template: Tree, user: Tree, inp: Inputs, owns: bool, allow: set<string> -> seq<string>, r: Tree, key: string)
    requires Enrich(template, user, inp, owns, allow) == Ok(r) && key in {"enabled", "frequency", "model"}
    requires inp.dreaming.Some? && OwnPlugin(inp, "memory-core") && StackOn(DeepMerge(template, user), inp)
    ensures var q := Layer("memory-core", "dreaming", key);
            GetAt(r, q) == DreamingValue(inp.dreaming.value, key)(GetAt(DeepMerge(template, user), q))
  {
    DreamingSetting(inp, key);
    LayerSettings(key);
    SettingInConfig(template, user, inp, owns, allow, r, Layer("memory-core", "dreaming", key), "memory-core",
                    DreamingValue(inp.dreaming.value, key));
  }

  /** What the wiki makes of the vault mode. */
  function VaultModeValue(w: Wiki): Option<Json> -> Option<Json> {
    v => if w.mode != "" then Some(Str(w.mode)) else OrElse(v, Str("bridge"))
  }

  lemma VaultModeSetting(inp: Inputs)
    requires inp.wiki.Some?
    ensures Settles(inp, VAULT_MODE, VaultModeValue(inp.wiki.value))
  {
    forall c ensures GetAt(Layered(c, inp), VAULT_MODE) == VaultModeValue(inp.wiki.value)(GetAt(c, VAULT_MODE)) {
      var c1 := if inp.dreaming.Some? then InjectDreaming(c, inp.dreaming.value) else c;
      if inp.dreaming.Some? {
        DreamingLeaves(c, inp.dreaming.value, VAULT_MODE);
      }
      VaultModeSettles(c1, inp.wiki.value);
    }
  }

  /** In the final config the vault mode is the spec's, else the user's, else bridge. */
  lemma VaultModeInConfig(template: Tree, user: Tree, inp: Inputs, owns: bool, allow: set<string> -> seq<string>, r: Tree)
    requires Enrich(template, user, inp, owns, allow) == Ok(r)
    requires inp.wiki.Some? && OwnPlugin(inp, "memory-wiki") && StackOn(DeepMerge(template, user), inp)
    ensures GetAt(r, VAULT_MODE) == VaultModeValue(inp.wiki.value)(GetAt(DeepMerge(template, user), VAULT_MODE))
  {
    VaultModeSetting(inp);
    LayerSettings("enabled");
    SettingInConfig(template, user, inp, owns, allow, r, VAULT_MODE, "memory-wiki", VaultModeValue(inp.wiki.value));
  }
}
