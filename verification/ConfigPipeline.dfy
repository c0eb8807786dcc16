/**
 The enrichment pipeline for the OpenClaw 7.2 config.  It starts from the deep merge of the
 operator's template and the user's raw config, both arbitrary trees, and runs the
 injection steps in order.  `Inputs` holds what the steps take from the Claw: values that
 are computed from credentials and tables arrive ready-made, `None` standing for the
 errors that end the pipeline.
 */
module ConfigPipeline {
  import opened Basics
  import opened Strings
  import opened JsonTree

  datatype Dreaming = Dreaming(frequency: string, model: string)
  datatype Wiki = Wiki(mode: string)
  /** `config` is None when the provider's own config does not parse. */
  datatype WebSearch = WebSearch(provider: string, pluginID: string, config: Option<Tree>)

  datatype Inputs = Inputs(
    userManaged: bool,
    routeHost: string,
    passwordAuth: bool,
    providers: Option<Tree>,
    vertexPlugins: seq<string>,
    catalog: Tree,
    primary: string,
    fallbacks: seq<string>,
    embedding: Option<string>,
    dreaming: Option<Dreaming>,
    wiki: Option<Wiki>,
    channels: Option<Tree>,
    mcpServers: Tree,
    webSearch: Option<WebSearch>,
    webFetch: Option<bool>,
    traces: bool,
    logs: bool,
    metrics: bool,
    otlpEndpoint: string,
    skipBootstrap: bool)

  datatype Failure = DuplicateProvider | InvalidChannels | InvalidWebSearch

  const LOCALHOST := "http://localhost:18789"

  const MODE := ["gateway", "mode"]
  const BIND := ["gateway", "bind"]
  const PORT := ["gateway", "port"]
  const AUTH := ["gateway", "auth"]
  const TRUSTED := ["gateway", "trustedProxies"]
  const UI_ENABLED := ["gateway", "controlUi", "enabled"]
  const UI_ORIGINS := ["gateway", "controlUi", "allowedOrigins"]
  const UI_NO_DEVICE_AUTH := ["gateway", "controlUi", "dangerouslyDisableDeviceAuth"]
  const CHECK_ON_START := ["update", "checkOnStart"]

  /******* String lists *******/

  function StringsOf(items: seq<Json>): (r: seq<string>)
    ensures forall s :: s in r <==> Str(s) in items
  {
    if items == [] then []
    else if items[0].Str? then [items[0].s] + StringsOf(items[1..])
    else StringsOf(items[1..])
  }

  /** `getStringSlice`: the string entries of the list at a path. */
  function StringsAt(m: Tree, path: seq<string>): seq<string>
    requires path != []
  {
    match GetAt(m, path)
    case Some(Arr(items)) => StringsOf(items)
    case _ => []
  }

  function AppendIfMissing(s: seq<string>, v: string): seq<string> {
    if v in s then s else s + [v]
  }

  function StringArr(s: seq<string>): Json {
    Arr(seq(|s|, i requires 0 <= i < |s| => Str(s[i])))
  }

  lemma {:induction false} StringArrRoundTrip(s: seq<string>)
    ensures StringsOf(StringArr(s).items) == s
  {
    if s != [] {
      StringArrRoundTrip(s[1..]);
      assert StringArr(s).items[1..] == StringArr(s[1..]).items;
    }
  }

  /******* Steps on the gateway *******/

  function EnforceInfrastructureKeys(c: Tree): Tree {
    var c1 := SetAt(c, MODE, Str("local"));
    var c2 := SetAt(c1, BIND, Str("lan"));
    var c3 := SetAt(c2, PORT, Num(18789.0));
    SetAt(c3, UI_ENABLED, Bool(true))
  }

  function TrustedList(c: Tree): seq<string> {
    AppendIfMissing(AppendIfMissing(StringsAt(c, TRUSTED), "10.0.0.0/8"), "172.16.0.0/12")
  }

  function EnforceTrustedProxies(c: Tree): Tree {
    SetAt(c, TRUSTED, StringArr(TrustedList(c)))
  }

  function RouteOrigin(inp: Inputs): string {
    if inp.routeHost == "" then LOCALHOST else inp.routeHost
  }

  function OriginList(c: Tree, inp: Inputs): seq<string> {
    AppendIfMissing(StringsAt(c, UI_ORIGINS), RouteOrigin(inp))
  }

  function InjectRouteHost(c: Tree, inp: Inputs): Tree {
    SetAt(c, UI_ORIGINS, StringArr(OriginList(c, inp)))
  }

  function AuthMode(inp: Inputs): Json {
    Obj(map["mode" := Str(if inp.passwordAuth then "password" else "token")])
  }

  function InjectAuthMode(c: Tree, inp: Inputs): Tree {
    DeleteAt(SetAt(c, AUTH, AuthMode(inp)), UI_NO_DEVICE_AUTH)
  }

  /******* Steps on other keys *******/

  function DisableUpdateCheck(c: Tree): Tree {
    SetAt(c, CHECK_ON_START, Bool(false))
  }

  function SkipDefaultPersonality(c: Tree, inp: Inputs): Tree {
    if inp.userManaged then c
    else SetAt(c, ["agents", "defaults", "skipOptionalBootstrapFiles"], StringArr(["SOUL.md", "IDENTITY.md"]))
  }

  function InjectProviders(c: Tree, providers: Tree): Tree {
    SetAt(c, ["models", "providers"], Obj(providers))
  }

  const ENABLED := Obj(map["enabled" := Bool(true)])

  function InjectProviderPlugins(c: Tree, ids: seq<string>): Tree {
    if ids == [] then c
    else SetDefaultAt(InjectProviderPlugins(c, ids[..|ids| - 1]), ["plugins", "entries", ids[|ids| - 1]], ENABLED)
  }

  /******* agents.defaults *******/

  const DEFAULTS := ["agents", "defaults"]

  function Defaults(c: Tree): Tree {
    Child(Child(c, "agents"), "defaults")
  }

  lemma SetDefaultsShape(c: Tree, d: Tree)
    ensures SetAt(c, DEFAULTS, Obj(d)) == c["agents" := Obj(Child(c, "agents")["defaults" := Obj(d)])]
    ensures Defaults(SetAt(c, DEFAULTS, Obj(d))) == d
  {
    assert DEFAULTS[1..] == ["defaults"];
  }

  /** Writing one setting of agents.defaults is writing the defaults with that setting changed. */
  lemma SetInDefaults(c: Tree, key: string, v: Json)
    ensures SetAt(c, DEFAULTS + [key], v) == SetAt(c, DEFAULTS, Obj(Defaults(c)[key := v]))
  {
    var p := DEFAULTS + [key];
    var agents := Child(c, "agents");
    SetDefaultsShape(c, Defaults(c)[key := v]);
    assert p[1..] == ["defaults", key] && p[1..][1..] == [key];
    assert SetAt(agents, p[1..], v) == agents["defaults" := Obj(Defaults(c)[key := v])];
  }

  lemma SetDefaultsTwice(c: Tree, d: Tree, e: Tree)
    ensures SetAt(SetAt(c, DEFAULTS, Obj(d)), DEFAULTS, Obj(e)) == SetAt(c, DEFAULTS, Obj(e))
  {
    SetDefaultsShape(c, d);
    SetDefaultsShape(c, e);
    SetDefaultsShape(SetAt(c, DEFAULTS, Obj(d)), e);
    var agents := Child(c, "agents");
    assert agents["defaults" := Obj(d)]["defaults" := Obj(e)] == agents["defaults" := Obj(e)];
  }

  /** Writing below agents.defaults is writing the defaults with that place changed. */
  lemma SetBelowDefaults(c: Tree, q: seq<string>, v: Json)
    requires q != []
    ensures SetAt(c, DEFAULTS + q, v) == SetAt(c, DEFAULTS, Obj(SetAt(Defaults(c), q, v)))
  {
    var p := DEFAULTS + q;
    SetDefaultsShape(c, SetAt(Defaults(c), q, v));
    assert p[1..] == ["defaults"] + q && p[1..][1..] == q;
    assert SetAt(Child(c, "agents"), p[1..], v) == Child(c, "agents")["defaults" := Obj(SetAt(Defaults(c), q, v))];
  }

  /** Defaults that are not empty are there already. */
  lemma DefaultsThere(c: Tree)
    requires Defaults(c) != map[]
    ensures SetAt(c, DEFAULTS, Obj(Defaults(c))) == c
  {
    SetDefaultsShape(c, Defaults(c));
    assert Child(c, "agents")["defaults" := Obj(Defaults(c))] == Child(c, "agents");
    assert c["agents" := Obj(Child(c, "agents"))] == c;
  }

  /** The same where the defaults were written before. */
  lemma SetOneDefault(c: Tree, d: Tree, key: string, v: Json)
    ensures SetAt(SetAt(c, DEFAULTS, Obj(d)), DEFAULTS + [key], v) == SetAt(c, DEFAULTS, Obj(d[key := v]))
    ensures Defaults(SetAt(c, DEFAULTS, Obj(d[key := v]))) == d[key := v]
  {
    SetDefaultsShape(c, d);
    SetDefaultsShape(c, d[key := v]);
    SetInDefaults(SetAt(c, DEFAULTS, Obj(d)), key, v);
    SetDefaultsTwice(c, d, d[key := v]);
  }

  function ModelSettings(model: Tree, inp: Inputs): Tree {
    var m1 := if "primary" in model && model["primary"].Str? && model["primary"].s != "" then model
              else model["primary" := Str(inp.primary)];
    if "fallbacks" !in m1 && inp.fallbacks != [] then m1["fallbacks" := StringArr(inp.fallbacks)] else m1
  }

  /** Catalog entries fill gaps; `allow` is the sorted list of all model names. */
  function CatalogDefaults(defaults: Tree, inp: Inputs, allow: set<string> -> seq<string>): Tree {
    var models := inp.catalog + Child(defaults, "models");
    var d1 := defaults["models" := Obj(models)];
    var d2 := if "modelPolicy" in d1 && d1["modelPolicy"].Obj? then d1
              else d1["modelPolicy" := Obj(map["allow" := StringArr(allow(models.Keys))])];
    d2["model" := Obj(ModelSettings(Child(d2, "model"), inp))]
  }

  function InjectModelCatalog(c: Tree, inp: Inputs, allow: set<string> -> seq<string>): Tree {
    if inp.catalog == map[] then c
    else SetAt(c, DEFAULTS, Obj(CatalogDefaults(Defaults(c), inp, allow)))
  }

  predicate HasMemorySearch(c: Tree) {
    "memory" in c && c["memory"].Obj? && "search" in c["memory"].fields
  }

  function InjectMemorySearch(c: Tree, inp: Inputs): Tree {
    if HasMemorySearch(c) then c
    else match inp.embedding
      case Some(adapter) => SetAt(c, ["memory", "search", "provider"], Str(adapter))
      case None => SetAt(c, ["memory", "search", "enabled"], Bool(false))
  }

  predicate UserChoseContextEngine(c: Tree) {
    GetAt(c, ["plugins", "slots", "contextEngine"]).Some?
  }

  function Entry(plugin: string, keys: seq<string>): (r: seq<string>)
    ensures r != [] && r[0] == "plugins"
  {
    ["plugins", "entries", plugin] + keys
  }

  function InjectDreaming(c: Tree, d: Dreaming): Tree {
    var c1 := SetDefaultAt(c, Entry("memory-core", ["config", "dreaming", "enabled"]), Bool(true));
    var c2 := if d.frequency == "" then c1
              else SetAt(c1, Entry("memory-core", ["config", "dreaming", "frequency"]), Str(d.frequency));
    if d.model == "" then c2 else SetAt(c2, Entry("memory-core", ["config", "dreaming", "model"]), Str(d.model))
  }

  function WikiPath(keys: seq<string>): (r: seq<string>)
    ensures r != [] && r[0] == "plugins"
  {
    Entry("memory-wiki", keys)
  }

  /** Seeds several switches of one map to true. */
  function SeedTrue(c: Tree, at: seq<string>, keys: seq<string>): Tree
    requires at != []
  {
    if keys == [] then c
    else SetDefaultAt(SeedTrue(c, at, keys[..|keys| - 1]), at + [keys[|keys| - 1]], Bool(true))
  }

  const BRIDGE_SWITCHES :=
    ["enabled", "readMemoryArtifacts", "indexDreamReports", "indexDailyNotes", "indexMemoryRoot", "followMemoryEvents"]

  const RENDER_SWITCHES := ["preserveHumanBlocks", "createBacklinks", "createDashboards"]

  /** The bridge is seeded only for a vault in bridge mode. */
  function SeedBridge(c: Tree): Tree {
    if GetAt(c, WikiPath(["config", "vaultMode"])) == Some(Str("bridge"))
    then SeedTrue(c, WikiPath(["config", "bridge"]), BRIDGE_SWITCHES)
    else c
  }

  function SeedVault(c: Tree): Tree {
    var c1 := SetDefaultAt(c, WikiPath(["config", "vault", "path"]), Str("~/.openclaw/workspace/wiki/main"));
    var c2 := SeedBridge(c1);
    var c3 := SetDefaultAt(c2, WikiPath(["config", "search", "backend"]), Str("shared"));
    var c4 := SetDefaultAt(c3, WikiPath(["config", "search", "corpus"]), Str("all"));
    SeedTrue(c4, WikiPath(["config", "render"]), RENDER_SWITCHES)
  }

  function InjectWiki(c: Tree, w: Wiki): Tree {
    var c1 := SetDefaultAt(c, WikiPath(["enabled"]), Bool(true));
    var c2 := if w.mode != "" then SetAt(c1, WikiPath(["config", "vaultMode"]), Str(w.mode))
              else SetDefaultAt(c1, WikiPath(["config", "vaultMode"]), Str("bridge"));
    SeedVault(c2)
  }

  /** `owns`: whether the operator takes the user to own memory.search. */
  function InjectMemoryStack(c: Tree, inp: Inputs, owns: bool): Tree {
    if (inp.dreaming.None? && inp.wiki.None?) || UserChoseContextEngine(c) then c
    else
      var c1 := if inp.embedding.Some? && !owns then SetAt(c, ["memory", "search", "enabled"], Bool(true)) else c;
      var c2 := if inp.dreaming.Some? then InjectDreaming(c1, inp.dreaming.value) else c1;
      if inp.wiki.Some? then InjectWiki(c2, inp.wiki.value) else c2
  }

  function InjectChannels(c: Tree, channels: Tree): Tree {
    if channels == map[] then c
    else
      var c1 := c["channels" := Obj(channels)];
      var plugins := map k | k in channels :: ENABLED;
      SetAt(c1, ["plugins", "entries"], Obj(Child(Child(c1, "plugins"), "entries") + plugins))
  }

  function InjectMcpServers(c: Tree, servers: Tree): Tree {
    if servers == map[] then c else c["mcp" := Obj(map["servers" := Obj(servers)])]
  }

  function InjectWebSearch(c: Tree, inp: Inputs): Result<Tree, Failure> {
    var c1 :=
      match inp.webSearch
      case None => Some(c)
      case Some(ws) =>
        var c1 := SetAt(c, ["tools", "web", "search"], Obj(map["enabled" := Bool(true), "provider" := Str(ws.provider)]));
        match ws.config
        case None => None
        case Some(cfg) => Some(if cfg == map[] then c1 else SetAt(c1, Entry(ws.pluginID, ["config", "webSearch"]), Obj(cfg)));
    if c1.None? then Err(InvalidWebSearch)
    else if inp.webFetch.None? then Ok(c1.value)
    else Ok(SetAt(c1.value, ["tools", "web", "fetch"], Obj(map["enabled" := Bool(inp.webFetch.value)])))
  }

  function InjectDiagnostics(c: Tree, inp: Inputs): Tree {
    if !inp.traces && !inp.logs && !inp.metrics then c
    else
      var c1 := SetAt(c, ["diagnostics", "otel", "enabled"], Bool(true));
      var c2 := if inp.traces then SetAt(c1, ["diagnostics", "otel", "traces"], Bool(true)) else c1;
      var c3 := if inp.logs then SetAt(c2, ["diagnostics", "otel", "logs"], Bool(true)) else c2;
      var c4 := if inp.metrics then SetAt(c3, ["diagnostics", "otel", "metrics"], Bool(true)) else c3;
      if inp.otlpEndpoint != "" then SetDefaultAt(c4, ["diagnostics", "otel", "endpoint"], Str(inp.otlpEndpoint)) else c4
  }

  function InjectSkipBootstrap(c: Tree, inp: Inputs): Tree {
    if inp.skipBootstrap then SetAt(c, ["agents", "defaults", "skipBootstrap"], Bool(true)) else c
  }

  const HOOK := ["hooks", "internal", "entries", "bootstrap-extra-files"]

  function InjectBootstrapHook(c: Tree, inp: Inputs): Tree {
    if inp.userManaged || GetAt(c, HOOK).Some? then c
    else
      SetAt(SetAt(c, ["hooks", "internal", "enabled"], Bool(true)), HOOK,
            Obj(map["enabled" := Bool(true), "paths" := StringArr([".operator/BOOTSTRAP.md"])]))
  }

  /******* The pipeline *******/

  /** The steps up to and including the auth mode; they cannot fail. */
  function GatewaySteps(c: Tree, inp: Inputs): Tree {
    InjectAuthMode(
      InjectRouteHost(
        SkipDefaultPersonality(
          DisableUpdateCheck(EnforceTrustedProxies(EnforceInfrastructureKeys(c))), inp), inp), inp)
  }

  function ProviderSteps(c: Tree, inp: Inputs, owns: bool, allow: set<string> -> seq<string>, providers: Tree): Tree {
    InjectMemoryStack(
      InjectMemorySearch(
        InjectModelCatalog(
          InjectProviderPlugins(InjectProviders(c, providers), inp.vertexPlugins), inp, allow), inp), inp, owns)
  }

  function ToolSteps(c: Tree, inp: Inputs): Result<Tree, Failure> {
    if inp.channels.None? then Err(InvalidChannels)
    else InjectWebSearch(InjectMcpServers(InjectChannels(c, inp.channels.value), inp.mcpServers), inp)
  }

  function FinalSteps(c: Tree, inp: Inputs): Tree {
    InjectBootstrapHook(InjectSkipBootstrap(InjectDiagnostics(c, inp), inp), inp)
  }

  function Enrich(template: Tree, user: Tree, inp: Inputs, owns: bool, allow: set<string> -> seq<string>)
    : Result<Tree, Failure>
  {
    var c1 := GatewaySteps(DeepMerge(template, user), inp);
    if inp.providers.None? then Err(DuplicateProvider)
    else
      var c2 := ProviderSteps(c1, inp, owns, allow, inp.providers.value);
      match ToolSteps(c2, inp)
      case Err(f) => Err(f)
      case Ok(c3) => Ok(FinalSteps(c3, inp))
  }
}
