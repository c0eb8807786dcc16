/** The plugins section of the final config: entries that are switched on, and the wiki's settings. */
module PluginEntries {
  import opened Basics
  import opened JsonTree
  import opened ConfigPipeline
  import opened ConfigTheorems
  import opened ConfigContents
  import opened PluginSettings
  import opened FinalConfig

  /******* The wiki, step by step *******/

  function WikiEntry(keys: seq<string>): seq<string> {
    ["plugins", "entries", "memory-wiki"] + keys
  }

  lemma WikiEntryIs(keys: seq<string>)
    ensures WikiPath(keys) == WikiEntry(keys)
  {
  }

  /** Two wiki settings that differ at some key lie apart. */
  lemma WikiDiverge(a: seq<string>, b: seq<string>, i: nat)
    requires i < |a| && i < |b| && a[i] != b[i]
    ensures Diverge(WikiEntry(a), WikiEntry(b))
  {
    DivergeAt(WikiEntry(a), WikiEntry(b), 3 + i);
  }

  lemma WikiSeed(c: Tree, a: seq<string>, v: Json, b: seq<string>, i: nat)
    requires i < |a| && i < |b| && a[i] != b[i]
    ensures GetAt(SetDefaultAt(c, WikiPath(a), v), WikiEntry(b)) == GetAt(c, WikiEntry(b))
  {
    WikiEntryIs(a);
    WikiDiverge(a, b, i);
    DefaultFrame(c, WikiEntry(a), v, WikiEntry(b));
  }

  lemma WikiSeeded(c: Tree, a: seq<string>, v: Json)
    ensures GetAt(SetDefaultAt(c, WikiPath(a), v), WikiEntry(a)) == OrElse(GetAt(c, WikiEntry(a)), v)
  {
    WikiEntryIs(a);
    GetAfterDefault(c, WikiEntry(a), v);
  }

  lemma WikiSwitches(c: Tree, at: seq<string>, keys: seq<string>, b: seq<string>, i: nat)
    requires i < |at| && i < |b| && at[i] != b[i]
    ensures GetAt(SeedTrue(c, WikiPath(at), keys), WikiEntry(b)) == GetAt(c, WikiEntry(b))
  {
    WikiEntryIs(at);
    WikiDiverge(at, b, i);
    SeedTrueFrame(c, WikiEntry(at), keys, WikiEntry(b));
  }

  /** The seeds below the wiki's vault, bridge, search and render leave everything else alone. */
  lemma VaultLeavesOthers(c: Tree, b: seq<string>)
    requires b != [] && (b[0] == "config" ==> |b| > 1 && b[1] !in {"vault", "bridge", "search", "render"})
    ensures GetAt(SeedVault(c), WikiEntry(b)) == GetAt(c, WikiEntry(b))
  {
    var i := if b[0] == "config" then 1 else 0;
    var c1 := SetDefaultAt(c, WikiPath(["config", "vault", "path"]), Str("~/.openclaw/workspace/wiki/main"));
    WikiSeed(c, ["config", "vault", "path"], Str("~/.openclaw/workspace/wiki/main"), b, i);
    WikiSwitches(c1, ["config", "bridge"], BRIDGE_SWITCHES, b, i);
    var c2 := SeedBridge(c1);
    SearchAndRender(c2, b, i);
  }

  lemma SearchAndRender(c: Tree, b: seq<string>, i: nat)
    requires i < 2 && i < |b| && b[i] != ["config", "search"][i] && b[i] != ["config", "render"][i]
    ensures GetAt(Rendered(c), WikiEntry(b)) == GetAt(c, WikiEntry(b))
  {
    var c1 := SetDefaultAt(c, WikiPath(["config", "search", "backend"]), Str("shared"));
    WikiSeed(c, ["config", "search", "backend"], Str("shared"), b, i);
    var c2 := SetDefaultAt(c1, WikiPath(["config", "search", "corpus"]), Str("all"));
    WikiSeed(c1, ["config", "search", "corpus"], Str("all"), b, i);
    WikiSwitches(c2, ["config", "render"], RENDER_SWITCHES, b, i);
  }

  function Rendered(c: Tree): Tree {
    var c1 := SetDefaultAt(c, WikiPath(["config", "search", "backend"]), Str("shared"));
    SeedTrue(SetDefaultAt(c1, WikiPath(["config", "search", "corpus"]), Str("all")), WikiPath(["config", "render"]), RENDER_SWITCHES)
  }

  /** The mode is written or seeded, and the wiki switched on, before the vault is seeded. */
  function Opened(c: Tree, w: Wiki): Tree {
    var c1 := SetDefaultAt(c, WikiPath(["enabled"]), Bool(true));
    if w.mode != "" then SetAt(c1, WikiPath(["config", "vaultMode"]), Str(w.mode))
    else SetDefaultAt(c1, WikiPath(["config", "vaultMode"]), Str("bridge"))
  }

  lemma WikiAsSteps(c: Tree, w: Wiki)
    ensures InjectWiki(c, w) == SeedVault(Opened(c, w))
    ensures var c1 := SetDefaultAt(Opened(c, w), WikiPath(["config", "vault", "path"]), Str("~/.openclaw/workspace/wiki/main"));
            SeedVault(Opened(c, w)) == Rendered(SeedBridge(c1))
  {
  }

  lemma OpenedLeaves(c: Tree, w: Wiki, b: seq<string>)
    requires |b| > 1 && b[0] == "config" && b[1] != "vaultMode"
    ensures GetAt(Opened(c, w), WikiEntry(b)) == GetAt(c, WikiEntry(b))
  {
    var c1 := SetDefaultAt(c, WikiPath(["enabled"]), Bool(true));
    WikiSeed(c, ["enabled"], Bool(true), b, 0);
    WikiSeed(c1, ["config", "vaultMode"], Str("bridge"), b, 1);
    WikiEntryIs(["config", "vaultMode"]);
    WikiDiverge(["config", "vaultMode"], b, 1);
    SetFrame(c1, WikiEntry(["config", "vaultMode"]), Str(w.mode), WikiEntry(b));
  }

  lemma OpenedSwitch(c: Tree, w: Wiki)
    ensures GetAt(Opened(c, w), WikiEntry(["enabled"])) == OrElse(GetAt(c, WikiEntry(["enabled"])), Bool(true))
  {
    var on, mode := ["enabled"], ["config", "vaultMode"];
    var c1 := SetDefaultAt(c, WikiPath(on), Bool(true));
    WikiSeeded(c, on, Bool(true));
    WikiSeed(c1, mode, Str("bridge"), on, 0);
    WikiEntryIs(mode);
    WikiDiverge(mode, on, 0);
    SetFrame(c1, WikiEntry(mode), Str(w.mode), WikiEntry(on));
  }

  /** The wiki is switched on unless the user says otherwise. */
  lemma WikiEnabled(c: Tree, w: Wiki)
    ensures GetAt(InjectWiki(c, w), ["plugins", "entries", "memory-wiki", "enabled"])
            == OrElse(GetAt(c, ["plugins", "entries", "memory-wiki", "enabled"]), Bool(true))
  {
    assert WikiEntry(["enabled"]) == ["plugins", "entries", "memory-wiki", "enabled"];
    WikiAsSteps(c, w);
    OpenedSwitch(c, w);
    VaultLeavesOthers(Opened(c, w), ["enabled"]);
  }

  /** The vault's place. */
  lemma VaultPathMeans(c: Tree, w: Wiki)
    ensures GetAt(InjectWiki(c, w), ["plugins", "entries", "memory-wiki", "config", "vault", "path"])
            == OrElse(GetAt(c, ["plugins", "entries", "memory-wiki", "config", "vault", "path"]), Str("~/.openclaw/workspace/wiki/main"))
  {
    var at, v := ["config", "vault", "path"], Str("~/.openclaw/workspace/wiki/main");
    assert WikiEntry(at) == ["plugins", "entries", "memory-wiki", "config", "vault", "path"];
    WikiAsSteps(c, w);
    OpenedLeaves(c, w, at);
    var c1 := SetDefaultAt(Opened(c, w), WikiPath(at), v);
    WikiSeeded(Opened(c, w), at, v);
    WikiSwitches(c1, ["config", "bridge"], BRIDGE_SWITCHES, at, 1);
    SearchAndRender(SeedBridge(c1), at, 1);
  }

  /** What the vault's first seed and the bridge leave of a setting they do not own. */
  lemma BridgeLeavesOthers(c: Tree, w: Wiki, b: seq<string>)
    requires |b| > 1 && b[0] == "config" && b[1] !in {"vaultMode", "vault", "bridge"}
    ensures var c1 := SetDefaultAt(Opened(c, w), WikiPath(["config", "vault", "path"]), Str("~/.openclaw/workspace/wiki/main"));
            GetAt(SeedBridge(c1), WikiEntry(b)) == GetAt(c, WikiEntry(b))
  {
    var c1 := SetDefaultAt(Opened(c, w), WikiPath(["config", "vault", "path"]), Str("~/.openclaw/workspace/wiki/main"));
    OpenedLeaves(c, w, b);
    WikiSeed(Opened(c, w), ["config", "vault", "path"], Str("~/.openclaw/workspace/wiki/main"), b, 1);
    WikiSwitches(c1, ["config", "bridge"], BRIDGE_SWITCHES, b, 1);
  }

  /** The wiki's search settings and render switches. */
  lemma WikiSearchMeans(c: Tree, w: Wiki)
    ensures var r, at := InjectWiki(c, w), ["plugins", "entries", "memory-wiki", "config", "search"];
            && GetAt(r, at + ["backend"]) == OrElse(GetAt(c, at + ["backend"]), Str("shared"))
            && GetAt(r, at + ["corpus"]) == OrElse(GetAt(c, at + ["corpus"]), Str("all"))
  {
    var backend, corpus := ["config", "search", "backend"], ["config", "search", "corpus"];
    var at := ["plugins", "entries", "memory-wiki", "config", "search"];
    assert WikiEntry(backend) == at + ["backend"] && WikiEntry(corpus) == at + ["corpus"];
    WikiAsSteps(c, w);
    BridgeLeavesOthers(c, w, backend);
    BridgeLeavesOthers(c, w, corpus);
    var c0 := SeedBridge(SetDefaultAt(Opened(c, w), WikiPath(["config", "vault", "path"]), Str("~/.openclaw/workspace/wiki/main")));
    SearchSeeds(c0);
  }

  lemma SearchSeeds(c: Tree)
    ensures var backend, corpus := WikiEntry(["config", "search", "backend"]), WikiEntry(["config", "search", "corpus"]);
            && GetAt(Rendered(c), backend) == OrElse(GetAt(c, backend), Str("shared"))
            && GetAt(Rendered(c), corpus) == OrElse(GetAt(c, corpus), Str("all"))
  {
    var backend, corpus := ["config", "search", "backend"], ["config", "search", "corpus"];
    var c1 := SetDefaultAt(c, WikiPath(backend), Str("shared"));
    WikiSeeded(c, backend, Str("shared"));
    WikiSeed(c, backend, Str("shared"), corpus, 2);
    var c2 := SetDefaultAt(c1, WikiPath(corpus), Str("all"));
    WikiSeeded(c1, corpus, Str("all"));
    WikiSeed(c1, corpus, Str("all"), backend, 2);
    WikiSwitches(c2, ["config", "render"], RENDER_SWITCHES, backend, 1);
    WikiSwitches(c2, ["config", "render"], RENDER_SWITCHES, corpus, 1);
  }

  lemma RenderSeeds(c: Tree, key: string)
    requires key in RENDER_SWITCHES
    ensures var b := WikiEntry(["config", "render", key]); GetAt(Rendered(c), b) == OrElse(GetAt(c, b), Bool(true))
  {
    var b := ["config", "render", key];
    var c1 := SetDefaultAt(c, WikiPath(["config", "search", "backend"]), Str("shared"));
    WikiSeed(c, ["config", "search", "backend"], Str("shared"), b, 1);
    var c2 := SetDefaultAt(c1, WikiPath(["config", "search", "corpus"]), Str("all"));
    WikiSeed(c1, ["config", "search", "corpus"], Str("all"), b, 1);
    assert ["config", "render"] + [key] == b;
    SwitchSeeds(c2, ["config", "render"], RENDER_SWITCHES, key);
  }

  lemma SwitchSeeds(c: Tree, at: seq<string>, keys: seq<string>, key: string)
    requires key in keys
    ensures GetAt(SeedTrue(c, WikiPath(at), keys), WikiEntry(at + [key])) == OrElse(GetAt(c, WikiEntry(at + [key])), Bool(true))
  {
    WikiEntryIs(at);
    assert WikiEntry(at) + [key] == WikiEntry(at + [key]);
    SeedTrueSettles(c, WikiEntry(at), keys, key);
  }

  lemma WikiRenderMeans(c: Tree, w: Wiki, key: string)
    requires key in {"preserveHumanBlocks", "createBacklinks", "createDashboards"}
    ensures var at := ["plugins", "entries", "memory-wiki", "config", "render", key];
            GetAt(InjectWiki(c, w), at) == OrElse(GetAt(c, at), Bool(true))
  {
    RenderPlace(key);
    WikiRendered(c, w, key);
  }

  lemma RenderPlace(key: string)
    ensures WikiEntry(["config", "render", key]) == ["plugins", "entries", "memory-wiki", "config", "render", key]
    ensures key in {"preserveHumanBlocks", "createBacklinks", "createDashboards"} ==> key in RENDER_SWITCHES
  {
  }

  lemma WikiRendered(c: Tree, w: Wiki, key: string)
    requires key in RENDER_SWITCHES
    ensures var at := WikiEntry(["config", "render", key]); GetAt(InjectWiki(c, w), at) == OrElse(GetAt(c, at), Bool(true))
  {
    var b := ["config", "render", key];
    WikiAsSteps(c, w);
    BridgeLeavesOthers(c, w, b);
    var c1 := SetDefaultAt(Opened(c, w), WikiPath(["config", "vault", "path"]), Str("~/.openclaw/workspace/wiki/main"));
    RenderSeeds(SeedBridge(c1), key);
  }

  lemma BridgeSeeds(c: Tree, key: string)
    requires key in BRIDGE_SWITCHES
    ensures var b := WikiEntry(["config", "bridge", key]);
            GetAt(SeedBridge(c), b)
            == if GetAt(c, WikiEntry(["config", "vaultMode"])) == Some(Str("bridge")) then OrElse(GetAt(c, b), Bool(true)) else GetAt(c, b)
  {
    WikiEntryIs(["config", "vaultMode"]);
    assert ["config", "bridge"] + [key] == ["config", "bridge", key];
    SwitchSeeds(c, ["config", "bridge"], BRIDGE_SWITCHES, key);
  }

  /** The bridge switches are seeded exactly for a vault in bridge mode. */
  lemma WikiBridgeMeans(c: Tree, w: Wiki, key: string)
    requires key in {"enabled", "readMemoryArtifacts", "indexDreamReports", "indexDailyNotes", "indexMemoryRoot", "followMemoryEvents"}
    ensures var r, at := InjectWiki(c, w), ["plugins", "entries", "memory-wiki", "config", "bridge", key];
            GetAt(r, at) == if GetAt(r, ["plugins", "entries", "memory-wiki", "config", "vaultMode"]) == Some(Str("bridge"))
                            then OrElse(GetAt(c, at), Bool(true)) else GetAt(c, at)
  {
    var b, mode := ["config", "bridge", key], ["config", "vaultMode"];
    assert WikiEntry(b) == ["plugins", "entries", "memory-wiki", "config", "bridge", key];
    assert WikiEntry(mode) == ["plugins", "entries", "memory-wiki", "config", "vaultMode"];
    WikiAsSteps(c, w);
    VaultLeavesOthers(Opened(c, w), mode);
    OpenedLeaves(c, w, b);
    BridgeAfterVault(Opened(c, w), key);
  }

  lemma BridgeAfterVault(c: Tree, key: string)
    requires key in BRIDGE_SWITCHES
    ensures var b := WikiEntry(["config", "bridge", key]);
            var c1 := SetDefaultAt(c, WikiPath(["config", "vault", "path"]), Str("~/.openclaw/workspace/wiki/main"));
            GetAt(Rendered(SeedBridge(c1)), b)
            == if GetAt(c, WikiEntry(["config", "vaultMode"])) == Some(Str("bridge")) then OrElse(GetAt(c, b), Bool(true)) else GetAt(c, b)
  {
    var b, v := ["config", "bridge", key], Str("~/.openclaw/workspace/wiki/main");
    var c1 := SetDefaultAt(c, WikiPath(["config", "vault", "path"]), v);
    WikiSeed(c, ["config", "vault", "path"], v, b, 1);
    WikiSeed(c, ["config", "vault", "path"], v, ["config", "vaultMode"], 1);
    BridgeSeeds(c1, key);
    SearchAndRender(SeedBridge(c1), b, 1);
  }

  /******* In the final config *******/

  /** The wiki's settings that are only seeded, and with what. */
  ghost predicate WikiDefault(q: seq<string>, v: Json) {
    EnabledDefault(q, v) || PathDefault(q, v) || SearchDefault(q, v) || RenderDefault(q, v)
  }

  predicate EnabledDefault(q: seq<string>, v: Json) {
    q == ["plugins", "entries", "memory-wiki", "enabled"] && v == Bool(true)
  }

  predicate PathDefault(q: seq<string>, v: Json) {
    q == ["plugins", "entries", "memory-wiki", "config", "vault", "path"] && v == Str("~/.openclaw/workspace/wiki/main")
  }

  predicate SearchDefault(q: seq<string>, v: Json) {
    || (q == ["plugins", "entries", "memory-wiki", "config", "search", "backend"] && v == Str("shared"))
    || (q == ["plugins", "entries", "memory-wiki", "config", "search", "corpus"] && v == Str("all"))
  }

  ghost predicate RenderDefault(q: seq<string>, v: Json) {
    v == Bool(true) &&
    exists key :: key in {"preserveHumanBlocks", "createBacklinks", "createDashboards"}
                  && q == ["plugins", "entries", "memory-wiki", "config", "render", key]
  }

  lemma WikiEnabledDefault(c: Tree, w: Wiki, q: seq<string>, v: Json)
    requires EnabledDefault(q, v)
    ensures q != [] && GetAt(InjectWiki(c, w), q) == OrElse(GetAt(c, q), v)
  {
    WikiEnabled(c, w);
  }

  lemma WikiPathDefault(c: Tree, w: Wiki, q: seq<string>, v: Json)
    requires PathDefault(q, v)
    ensures q != [] && GetAt(InjectWiki(c, w), q) == OrElse(GetAt(c, q), v)
  {
    VaultPathMeans(c, w);
  }

  lemma WikiRenderDefault(c: Tree, w: Wiki, q: seq<string>, v: Json)
    requires RenderDefault(q, v)
    ensures q != [] && GetAt(InjectWiki(c, w), q) == OrElse(GetAt(c, q), v)
  {
    var key :| key in {"preserveHumanBlocks", "createBacklinks", "createDashboards"}
               && q == ["plugins", "entries", "memory-wiki", "config", "render", key];
    WikiRenderMeans(c, w, key);
  }

  lemma WikiSeedsDefault(c: Tree, w: Wiki, q: seq<string>, v: Json)
    requires WikiDefault(q, v)
    ensures q != [] && GetAt(InjectWiki(c, w), q) == OrElse(GetAt(c, q), v)
  {
    if EnabledDefault(q, v) {
      WikiEnabledDefault(c, w, q, v);
    } else if PathDefault(q, v) {
      WikiPathDefault(c, w, q, v);
    } else if SearchDefault(q, v) {
      WikiSearchDefault(c, w, q, v);
    } else {
      WikiRenderDefault(c, w, q, v);
    }
  }

  lemma WikiSearchDefault(c: Tree, w: Wiki, q: seq<string>, v: Json)
    requires SearchDefault(q, v)
    ensures q != [] && GetAt(InjectWiki(c, w), q) == OrElse(GetAt(c, q), v)
  {
    var at := ["plugins", "entries", "memory-wiki", "config", "search"];
    assert at + ["backend"] == ["plugins", "entries", "memory-wiki", "config", "search", "backend"];
    assert at + ["corpus"] == ["plugins", "entries", "memory-wiki", "config", "search", "corpus"];
    WikiSearchMeans(c, w);
  }

  lemma WikiDefaultIsSetting(q: seq<string>, v: Json)
    requires WikiDefault(q, v)
    ensures PluginSetting(q, "memory-wiki")
  {
    assert "vault"[0] != "webSearch"[0] && "search"[0] != "webSearch"[0] && "render"[0] != "webSearch"[0] && "enabled"[0] != "config"[0];
  }

  /** Seeded wiki settings hold the user's value if there is one, the default otherwise. */
  lemma WikiInConfig(
      template: Tree, user: Tree, inp: Inputs, owns: bool, allow: set<string> -> seq<string>, r: Tree, q: seq<string>, v: Json)
    requires Final(template, user, inp, owns, allow, r) && WikiDefault(q, v)
    requires inp.wiki.Some? && OwnPlugin(inp, "memory-wiki") && StackOn(DeepMerge(template, user), inp)
    ensures q != [] && GetAt(r, q) == OrElse(GetAt(DeepMerge(template, user), q), v)
  {
    WikiDefaultIsSetting(q, v);
    WikiSettles(inp, q, v);
    SettingInConfig(template, user, inp, owns, allow, r, q, "memory-wiki", x => OrElse(x, v));
  }

  lemma WikiSettles(inp: Inputs, q: seq<string>, v: Json)
    requires inp.wiki.Some? && WikiDefault(q, v) && PluginSetting(q, "memory-wiki")
    ensures Settles(inp, q, x => OrElse(x, v))
  {
    forall c ensures GetAt(Layered(c, inp), q) == OrElse(GetAt(c, q), v) {
      var c1 := if inp.dreaming.Some? then InjectDreaming(c, inp.dreaming.value) else c;
      if inp.dreaming.Some? {
        DreamingLeaves(c, inp.dreaming.value, q);
      }
      WikiSeedsDefault(c1, inp.wiki.value, q, v);
    }
  }

  /******* Entries that are switched on *******/

  lemma ChannelEntries(c: Tree, channels: Tree, k: string)
    requires k in channels
    ensures GetAt(InjectChannels(c, channels), ["plugins", "entries", k]) == Some(Obj(map["enabled" := Bool(true)]))
  {
    assert channels != map[];
    var c1 := c["channels" := Obj(channels)];
    var plugins := map l | l in channels :: ENABLED;
    var entries := Child(Child(c1, "plugins"), "entries") + plugins;
    var p := ["plugins", "entries"];
    GetAfterSet(c1, p, Obj(entries));
    GetBelow(SetAt(c1, p, Obj(entries)), p, k);
    assert p + [k] == ["plugins", "entries", k];
    assert entries[k] == plugins[k] == ENABLED;
  }

  /** The steps that write plugin entries, one after the other. */
  ghost predicate PluginSteps(m: Tree, g: Tree, st: Stages, r: Tree, inp: Inputs, owns: bool)
    requires inp.channels.Some?
  {
    && Keeps(m, g, GATEWAY_KEYS) && Disciplined(g, st, r)
    && st.plugins == InjectProviderPlugins(st.providers, inp.vertexPlugins) && st.stack == InjectMemoryStack(st.search, inp, owns)
    && st.channels == InjectChannels(st.stack, inp.channels.value) && InjectWebSearch(st.mcp, inp) == Ok(st.web)
  }

  lemma PluginStages(template: Tree, user: Tree, inp: Inputs, owns: bool, allow: set<string> -> seq<string>, r: Tree)
    returns (g: Tree, st: Stages)
    requires Final(template, user, inp, owns, allow, r)
    ensures inp.channels.Some? && PluginSteps(DeepMerge(template, user), g, st, r, inp, owns)
  {
    var m := DeepMerge(template, user);
    EnrichByStages(template, user, inp, owns, allow);
    g := GatewaySteps(m, inp);
    GatewayStepsKeep(m, inp, GATEWAY_KEYS);
    StepsAreDisciplined(g, inp, owns, allow);
    st := StagesOf(g, inp, owns, allow);
  }

  /** A channel's plugin is switched on. */
  lemma ChannelInConfig(template: Tree, user: Tree, inp: Inputs, owns: bool, allow: set<string> -> seq<string>, r: Tree, k: string)
    requires Final(template, user, inp, owns, allow, r) && inp.channels.Some? && k in inp.channels.value
    ensures GetAt(r, ["plugins", "entries", k, "enabled"]) == Some(Bool(true))
  {
    var g, st := PluginStages(template, user, inp, owns, allow, r);
    ChannelEntries(st.stack, inp.channels.value, k);
    ChannelFrom(g, st, r, inp, k);
  }

  lemma ChannelFrom(g: Tree, st: Stages, r: Tree, inp: Inputs, k: string)
    requires Disciplined(g, st, r) && InjectWebSearch(st.mcp, inp) == Ok(st.web)
    requires GetAt(st.channels, ["plugins", "entries", k]) == Some(Obj(map["enabled" := Bool(true)]))
    ensures GetAt(r, ["plugins", "entries", k, "enabled"]) == Some(Bool(true))
  {
    var q := ["plugins", "entries", k, "enabled"];
    EntrySwitch(st.channels, k);
    SameHead(st.channels, st.mcp, q);
    assert "enabled"[0] != "config"[0];
    WebSearchLeaves(st.mcp, inp, q, k);
    SameHead(st.web, r, q);
  }

  lemma EntrySwitch(c: Tree, k: string)
    requires GetAt(c, ["plugins", "entries", k]) == Some(Obj(map["enabled" := Bool(true)]))
    ensures GetAt(c, ["plugins", "entries", k, "enabled"]) == Some(Bool(true))
  {
    GetBelow(c, ["plugins", "entries", k], "enabled");
    assert ["plugins", "entries", k] + ["enabled"] == ["plugins", "entries", k, "enabled"];
  }

  lemma {:induction false} ProviderEntry(c: Tree, ids: seq<string>, id: string)
    requires id in ids
    ensures var at := ["plugins", "entries", id];
            GetAt(InjectProviderPlugins(c, ids), at) == OrElse(GetAt(c, at), Obj(map["enabled" := Bool(true)]))
    decreases |ids|
  {
    var last, at := |ids| - 1, ["plugins", "entries", id];
    var init := ids[..last];
    var before := InjectProviderPlugins(c, init);
    if id in init {
      ProviderEntry(c, init, id);
    } else {
      ProviderEntryOther(c, init, id);
    }
    if ids[last] == id {
      GetAfterDefault(before, at, ENABLED);
    } else {
      DivergeAt(["plugins", "entries", ids[last]], at, 2);
      DefaultFrame(before, ["plugins", "entries", ids[last]], ENABLED, at);
    }
  }

  lemma {:induction false} ProviderEntryOther(c: Tree, ids: seq<string>, id: string)
    requires id !in ids
    ensures GetAt(InjectProviderPlugins(c, ids), ["plugins", "entries", id]) == GetAt(c, ["plugins", "entries", id])
    decreases |ids|
  {
    if ids != [] {
      var last, at := |ids| - 1, ["plugins", "entries", id];
      ProviderEntryOther(c, ids[..last], id);
      DivergeAt(["plugins", "entries", ids[last]], at, 2);
      DefaultFrame(InjectProviderPlugins(c, ids[..last]), ["plugins", "entries", ids[last]], ENABLED, at);
    }
  }

  /** The plugin of a provider that the merge has no entry for is switched on. */
  lemma ProviderInConfig(template: Tree, user: Tree, inp: Inputs, owns: bool, allow: set<string> -> seq<string>, r: Tree, id: string)
    requires Final(template, user, inp, owns, allow, r) && id in inp.vertexPlugins
    requires inp.channels.Some? && id !in inp.channels.value && id != "memory-core" && id != "memory-wiki"
    requires GetAt(DeepMerge(template, user), ["plugins", "entries", id]).None?
    ensures GetAt(r, ["plugins", "entries", id, "enabled"]) == Some(Bool(true))
  {
    var g, st := PluginStages(template, user, inp, owns, allow, r);
    ProviderFrom(DeepMerge(template, user), g, st, r, inp, owns, id);
  }

  lemma ProviderFrom(m: Tree, g: Tree, st: Stages, r: Tree, inp: Inputs, owns: bool, id: string)
    requires inp.channels.Some? && PluginSteps(m, g, st, r, inp, owns) && id in inp.vertexPlugins
    requires id !in inp.channels.value && id != "memory-core" && id != "memory-wiki"
    requires GetAt(m, ["plugins", "entries", id]).None?
    ensures GetAt(r, ["plugins", "entries", id, "enabled"]) == Some(Bool(true))
  {
    var at, q := ["plugins", "entries", id], ["plugins", "entries", id, "enabled"];
    assert "enabled"[0] != "config"[0];
    SameHead(st.providers, m, at);
    ProviderEntry(st.providers, inp.vertexPlugins, id);
    EntrySwitch(st.plugins, id);
    SameHead(st.plugins, st.search, q);
    StackLeaves(st.search, inp, owns, q);
    ChannelsLeave(st.stack, inp.channels.value, q, id);
    SameHead(st.channels, st.mcp, q);
    WebSearchLeaves(st.mcp, inp, q, id);
    SameHead(st.web, r, q);
  }

  lemma StackLeaves(c: Tree, inp: Inputs, owns: bool, q: seq<string>)
    requires |q| >= 3 && q[0] == "plugins" && q[2] != "memory-core" && q[2] != "memory-wiki"
    ensures GetAt(InjectMemoryStack(c, inp, owns), q) == GetAt(c, q)
  {
    if StackOn(c, inp) {
      StackLayers(c, inp, owns);
      StackBaseLeaves(c, inp, owns, q);
      var c1 := StackBase(c, inp, owns);
      if inp.dreaming.Some? {
        DreamingLeaves(c1, inp.dreaming.value, q);
      }
      if inp.wiki.Some? {
        WikiLeaves(if inp.dreaming.Some? then InjectDreaming(c1, inp.dreaming.value) else c1, inp.wiki.value, q);
      }
    }
  }
}
