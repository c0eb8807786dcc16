/**
 The final config, value by value: each place the operator writes, by its path and with the
 value it ends up with.
 */
module FinalConfig {
  import opened Basics
  import opened JsonTree
  import opened ConfigPipeline
  import opened ConfigTheorems
  import opened ConfigContents

  /** What the enrichment makes of the merged config. */
  ghost predicate Final(template: Tree, user: Tree, inp: Inputs, owns: bool, allow: set<string> -> seq<string>, r: Tree) {
    Enrich(template, user, inp, owns, allow) == Ok(r)
  }

  /******* Gateway and update check *******/

  /** The places the gateway steps write, and their values. */
  ghost predicate GatewayLiterals(r: Tree, inp: Inputs) {
    && GetAt(r, ["gateway", "mode"]) == Some(Str("local"))
    && GetAt(r, ["gateway", "bind"]) == Some(Str("lan"))
    && GetAt(r, ["gateway", "port"]) == Some(Num(18789.0))
    && GetAt(r, ["gateway", "auth"]) == Some(Obj(map["mode" := Str(if inp.passwordAuth then "password" else "token")]))
    && GetAt(r, ["gateway", "controlUi", "enabled"]) == Some(Bool(true))
    && GetAt(r, ["gateway", "controlUi", "dangerouslyDisableDeviceAuth"]).None?
    && GetAt(r, ["update", "checkOnStart"]) == Some(Bool(false))
    && "10.0.0.0/8" in StringsAt(r, ["gateway", "trustedProxies"]) && "172.16.0.0/12" in StringsAt(r, ["gateway", "trustedProxies"])
    && (if inp.routeHost != "" then inp.routeHost else "http://localhost:18789") in StringsAt(r, ["gateway", "controlUi", "allowedOrigins"])
  }

  lemma AlwaysWinsLiterals(template: Tree, user: Tree, inp: Inputs, r: Tree)
    requires AlwaysWins(template, user, inp, r)
    ensures GatewayLiterals(r, inp)
  {
  }

  /** Right after the gateway steps, whatever the tree was. */
  lemma GatewayStepsLiterals(c: Tree, inp: Inputs)
    ensures GatewayLiterals(GatewaySteps(c, inp), inp)
  {
    GatewayStepsDone(c, inp);
    DoneLiterals(GatewaySteps(c, inp), c, inp);
  }

  lemma DoneLiterals(r: Tree, c: Tree, inp: Inputs)
    requires GatewayDone(r, inp, TrustedList(c), OriginList(c, inp))
    ensures GatewayLiterals(r, inp)
  {
  }

  /** ... and still in the final config. */
  lemma GatewayValues(template: Tree, user: Tree, inp: Inputs, owns: bool, allow: set<string> -> seq<string>)
    ensures Enrich(template, user, inp, owns, allow).Ok? ==> GatewayLiterals(Enrich(template, user, inp, owns, allow).value, inp)
  {
    EnrichedConfig(template, user, inp, owns, allow);
    if Enrich(template, user, inp, owns, allow).Ok? {
      AlwaysWinsLiterals(template, user, inp, Enrich(template, user, inp, owns, allow).value);
    }
  }

  /******* What the last steps find *******/

  /** The config before the web search and after it, with the keys they own as the merge left them. */
  ghost predicate Late(m: Tree, mcp: Tree, web: Tree, r: Tree, inp: Inputs) {
    && InjectWebSearch(mcp, inp) == Ok(web)
    && Lookup(mcp, "tools") == Lookup(m, "tools") && Lookup(web, "diagnostics") == Lookup(m, "diagnostics")
    && Lookup(web, "hooks") == Lookup(m, "hooks")
    && Lookup(r, "tools") == Lookup(web, "tools") && Lookup(r, "plugins") == Lookup(web, "plugins")
    && Lookup(r, "diagnostics") == Lookup(InjectDiagnostics(web, inp), "diagnostics")
  }

  /** The tools and the final steps, with the keys they own as the merge left them. */
  lemma LastSteps(template: Tree, user: Tree, inp: Inputs, owns: bool, allow: set<string> -> seq<string>, r: Tree)
    returns (mcp: Tree, web: Tree)
    requires Final(template, user, inp, owns, allow, r)
    ensures Late(DeepMerge(template, user), mcp, web, r, inp) && r == FinalSteps(web, inp)
  {
    var m := DeepMerge(template, user);
    EnrichByStages(template, user, inp, owns, allow);
    var g := GatewaySteps(m, inp);
    GatewayStepsKeep(m, inp, GATEWAY_KEYS);
    StepsAreDisciplined(g, inp, owns, allow);
    var st := StagesOf(g, inp, owns, allow);
    mcp, web := st.mcp, st.web;
    LastKeys(m, g, st, r);
    AfterDiagnostics(web, inp);
  }

  lemma LastKeys(m: Tree, g: Tree, st: Stages, r: Tree)
    requires Keeps(m, g, GATEWAY_KEYS) && Disciplined(g, st, r)
    ensures Lookup(st.mcp, "tools") == Lookup(m, "tools")
    ensures Lookup(st.web, "diagnostics") == Lookup(m, "diagnostics") && Lookup(st.web, "hooks") == Lookup(m, "hooks")
    ensures Lookup(r, "tools") == Lookup(st.web, "tools") && Lookup(r, "plugins") == Lookup(st.web, "plugins")
  {
    assert Lookup(st.stack, "tools") == Lookup(g, "tools");
    assert Lookup(st.stack, "diagnostics") == Lookup(g, "diagnostics") && Lookup(st.stack, "hooks") == Lookup(g, "hooks");
  }

  /** A conditional write, read where it is made and elsewhere. */
  lemma SetWhen(c: Tree, asked: bool, p: seq<string>, v: Json, q: seq<string>)
    requires p != [] && q != [] && Diverge(p, q)
    ensures var r := if asked then SetAt(c, p, v) else c;
            GetAt(r, p) == (if asked then Some(v) else GetAt(c, p)) && GetAt(r, q) == GetAt(c, q)
  {
    GetAfterSet(c, p, v);
    SetFrame(c, p, v, q);
  }

  /******* Diagnostics *******/

  function Otel(key: string): seq<string> {
    ["diagnostics", "otel", key]
  }

  /** Any signal switches the exporter on; a signal is switched on that is asked for; an endpoint is only seeded. */
  function OtelValue(c: Tree, inp: Inputs, key: string): Option<Json> {
    var was := GetAt(c, Otel(key));
    var any := inp.traces || inp.logs || inp.metrics;
    if (key == "enabled" && any) || (key == "traces" && inp.traces) || (key == "logs" && inp.logs) || (key == "metrics" && inp.metrics)
    then Some(Bool(true))
    else if key == "endpoint" && any && inp.otlpEndpoint != "" then OrElse(was, Str(inp.otlpEndpoint))
    else was
  }

  /** One write to the exporter's settings, read at one of its keys. */
  lemma OtelSet(c: Tree, asked: bool, key: string, read: string)
    ensures GetAt(if asked then SetAt(c, Otel(key), Bool(true)) else c, Otel(read))
            == if asked && key == read then Some(Bool(true)) else GetAt(c, Otel(read))
  {
    if key == read {
      GetAfterSet(c, Otel(key), Bool(true));
    } else {
      DivergeAt(Otel(key), Otel(read), 2);
      SetFrame(c, Otel(key), Bool(true), Otel(read));
    }
  }

  function Switched(c: Tree, inp: Inputs): Tree {
    var c1 := if inp.traces || inp.logs || inp.metrics then SetAt(c, Otel("enabled"), Bool(true)) else c;
    var c2 := if inp.traces then SetAt(c1, Otel("traces"), Bool(true)) else c1;
    var c3 := if inp.logs then SetAt(c2, Otel("logs"), Bool(true)) else c2;
    if inp.metrics then SetAt(c3, Otel("metrics"), Bool(true)) else c3
  }

  lemma SwitchedRead(c: Tree, inp: Inputs, key: string)
    ensures GetAt(Switched(c, inp), Otel(key))
            == if key == "endpoint" then GetAt(c, Otel(key)) else OtelValue(c, inp, key)
  {
    var any := inp.traces || inp.logs || inp.metrics;
    var c1 := if any then SetAt(c, Otel("enabled"), Bool(true)) else c;
    OtelSet(c, any, "enabled", key);
    var c2 := if inp.traces then SetAt(c1, Otel("traces"), Bool(true)) else c1;
    OtelSet(c1, inp.traces, "traces", key);
    var c3 := if inp.logs then SetAt(c2, Otel("logs"), Bool(true)) else c2;
    OtelSet(c2, inp.logs, "logs", key);
    OtelSet(c3, inp.metrics, "metrics", key);
  }

  lemma DiagnosticsAsWrites(c: Tree, inp: Inputs)
    ensures var any := inp.traces || inp.logs || inp.metrics;
            InjectDiagnostics(c, inp)
            == if any && inp.otlpEndpoint != "" then SetDefaultAt(Switched(c, inp), Otel("endpoint"), Str(inp.otlpEndpoint)) else Switched(c, inp)
  {
  }

  lemma OtelRead(c: Tree, inp: Inputs, key: string)
    ensures GetAt(InjectDiagnostics(c, inp), ["diagnostics", "otel", key]) == OtelValue(c, inp, key)
  {
    DiagnosticsAsWrites(c, inp);
    SwitchedRead(c, inp, key);
    EndpointRead(Switched(c, inp), Str(inp.otlpEndpoint), key);
  }

  lemma EndpointRead(c: Tree, v: Json, key: string)
    ensures GetAt(SetDefaultAt(c, Otel("endpoint"), v), Otel(key))
            == if key == "endpoint" then OrElse(GetAt(c, Otel(key)), v) else GetAt(c, Otel(key))
  {
    if key == "endpoint" {
      GetAfterDefault(c, Otel("endpoint"), v);
    } else {
      DivergeAt(Otel("endpoint"), Otel(key), 2);
      DefaultFrame(c, Otel("endpoint"), v, Otel(key));
    }
  }

  /** In the final config, relative to the merge. */
  lemma DiagnosticsInConfig(template: Tree, user: Tree, inp: Inputs, owns: bool, allow: set<string> -> seq<string>, r: Tree, key: string)
    requires Final(template, user, inp, owns, allow, r)
    ensures GetAt(r, ["diagnostics", "otel", key]) == OtelValue(DeepMerge(template, user), inp, key)
  {
    var mcp, web := LastSteps(template, user, inp, owns, allow, r);
    DiagnosticsFrom(DeepMerge(template, user), mcp, web, r, inp, key);
  }

  lemma DiagnosticsFrom(m: Tree, mcp: Tree, web: Tree, r: Tree, inp: Inputs, key: string)
    requires Late(m, mcp, web, r, inp)
    ensures GetAt(r, ["diagnostics", "otel", key]) == OtelValue(m, inp, key)
  {
    SameHead(r, InjectDiagnostics(web, inp), Otel(key));
    OtelRead(web, inp, key);
    SameHead(web, m, Otel(key));
  }

  lemma AfterDiagnostics(c: Tree, inp: Inputs)
    ensures Lookup(FinalSteps(c, inp), "diagnostics") == Lookup(InjectDiagnostics(c, inp), "diagnostics")
  {
    var c1 := InjectDiagnostics(c, inp);
    SetKeeps(c1, ["agents", "defaults", "skipBootstrap"], Bool(true), {"agents"});
    HookKeeps(InjectSkipBootstrap(c1, inp), inp, {"hooks"});
  }

  /******* The bootstrap hook and switch *******/

  /** The hook is installed unless the Claw is user-managed or the user has one. */
  lemma HookMeans(c: Tree, inp: Inputs)
    ensures var r, at := InjectBootstrapHook(c, inp), ["hooks", "internal", "entries", "bootstrap-extra-files"];
            && (inp.userManaged || GetAt(c, at).Some? ==> r == c)
            && (!inp.userManaged && GetAt(c, at).None? ==>
                  && GetAt(r, ["hooks", "internal", "enabled"]) == Some(Bool(true))
                  && GetAt(r, at) == Some(Obj(map["enabled" := Bool(true), "paths" := Arr([Str(".operator/BOOTSTRAP.md")])])))
  {
    var at, on := ["hooks", "internal", "entries", "bootstrap-extra-files"], ["hooks", "internal", "enabled"];
    assert at == HOOK;
    var v := Obj(map["enabled" := Bool(true), "paths" := StringArr([".operator/BOOTSTRAP.md"])]);
    assert StringArr([".operator/BOOTSTRAP.md"]) == Arr([Str(".operator/BOOTSTRAP.md")]);
    var c1 := SetAt(c, on, Bool(true));
    GetAfterSet(c, on, Bool(true));
    GetAfterSet(c1, at, v);
    DivergeAt(at, on, 2);
    SetFrame(c1, at, v, on);
  }

  /** In the final config, relative to the merge. */
  lemma HookInConfig(template: Tree, user: Tree, inp: Inputs, owns: bool, allow: set<string> -> seq<string>, r: Tree)
    requires Final(template, user, inp, owns, allow, r)
    ensures Lookup(r, "hooks") == Lookup(InjectBootstrapHook(DeepMerge(template, user), inp), "hooks")
  {
    var mcp, web := LastSteps(template, user, inp, owns, allow, r);
    HookFrom(DeepMerge(template, user), web, inp);
  }

  lemma HookFrom(m: Tree, web: Tree, inp: Inputs)
    requires Lookup(web, "hooks") == Lookup(m, "hooks")
    ensures Lookup(FinalSteps(web, inp), "hooks") == Lookup(InjectBootstrapHook(m, inp), "hooks")
  {
    var before := InjectSkipBootstrap(InjectDiagnostics(web, inp), inp);
    DiagnosticsKeep(web, inp, {"diagnostics"});
    SetKeeps(InjectDiagnostics(web, inp), ["agents", "defaults", "skipBootstrap"], Bool(true), {"agents"});
    HookDependsOnHooks(before, m, inp);
  }

  lemma HookDependsOnHooks(a: Tree, b: Tree, inp: Inputs)
    requires Lookup(a, "hooks") == Lookup(b, "hooks")
    ensures Lookup(InjectBootstrapHook(a, inp), "hooks") == Lookup(InjectBootstrapHook(b, inp), "hooks")
  {
    SameHead(a, b, HOOK);
    var on := ["hooks", "internal", "enabled"];
    var v := Obj(map["enabled" := Bool(true), "paths" := StringArr([".operator/BOOTSTRAP.md"])]);
    SetDependsOnKey(a, b, on, Bool(true));
    SetDependsOnKey(SetAt(a, on, Bool(true)), SetAt(b, on, Bool(true)), HOOK, v);
  }

  lemma SetDependsOnKey(a: Tree, b: Tree, p: seq<string>, v: Json)
    requires p != [] && Lookup(a, p[0]) == Lookup(b, p[0])
    ensures Lookup(SetAt(a, p, v), p[0]) == Lookup(SetAt(b, p, v), p[0])
  {
  }

  /******* Tools *******/

  /** Web search and fetch, relative to the merge. */
  ghost predicate ToolLiterals(m: Tree, r: Tree, inp: Inputs) {
    && GetAt(r, ["tools", "web", "search"])
       == (if inp.webSearch.Some? then Some(Obj(map["enabled" := Bool(true), "provider" := Str(inp.webSearch.value.provider)]))
           else GetAt(m, ["tools", "web", "search"]))
    && GetAt(r, ["tools", "web", "fetch"])
       == (if inp.webFetch.Some? then Some(Obj(map["enabled" := Bool(inp.webFetch.value)])) else GetAt(m, ["tools", "web", "fetch"]))
    && (inp.webSearch.Some? && inp.webSearch.value.config.Some? && inp.webSearch.value.config.value != map[] ==>
          GetAt(r, ["plugins", "entries", inp.webSearch.value.pluginID, "config", "webSearch"]) == Some(Obj(inp.webSearch.value.config.value)))
  }

  /** In the final config. */
  lemma ToolsInConfig(template: Tree, user: Tree, inp: Inputs, owns: bool, allow: set<string> -> seq<string>, r: Tree)
    requires Final(template, user, inp, owns, allow, r)
    ensures ToolLiterals(DeepMerge(template, user), r, inp)
  {
    var mcp, web := LastSteps(template, user, inp, owns, allow, r);
    ToolsFrom(DeepMerge(template, user), mcp, web, r, inp);
  }

  lemma ToolsFrom(m: Tree, mcp: Tree, web: Tree, r: Tree, inp: Inputs)
    requires Late(m, mcp, web, r, inp)
    ensures ToolLiterals(m, r, inp)
  {
    SearchWritten(mcp, web, inp);
    SameHead(r, web, ["tools", "web", "search"]);
    SameHead(r, web, ["tools", "web", "fetch"]);
    SameHead(mcp, m, ["tools", "web", "search"]);
    SameHead(mcp, m, ["tools", "web", "fetch"]);
    if inp.webSearch.Some? {
      SameHead(r, web, ["plugins", "entries", inp.webSearch.value.pluginID, "config", "webSearch"]);
    }
  }

  lemma SearchWritten(c: Tree, r: Tree, inp: Inputs)
    requires InjectWebSearch(c, inp) == Ok(r)
    ensures GetAt(r, ["tools", "web", "search"])
            == (if inp.webSearch.Some? then Some(Obj(map["enabled" := Bool(true), "provider" := Str(inp.webSearch.value.provider)]))
                else GetAt(c, ["tools", "web", "search"]))
    ensures GetAt(r, ["tools", "web", "fetch"])
            == (if inp.webFetch.Some? then Some(Obj(map["enabled" := Bool(inp.webFetch.value)])) else GetAt(c, ["tools", "web", "fetch"]))
    ensures inp.webSearch.Some? ==> inp.webSearch.value.config.Some?
    ensures inp.webSearch.Some? && inp.webSearch.value.config.value != map[] ==>
              GetAt(r, ["plugins", "entries", inp.webSearch.value.pluginID, "config", "webSearch"]) == Some(Obj(inp.webSearch.value.config.value))
  {
    var search, fetch := ["tools", "web", "search"], ["tools", "web", "fetch"];
    var fetched := Obj(map["enabled" := Bool(inp.webFetch.Some? && inp.webFetch.value)]);
    DivergeAt(fetch, search, 2);
    if inp.webSearch.None? {
      SetWhen(c, inp.webFetch.Some?, fetch, fetched, search);
    } else {
      var ws := inp.webSearch.value;
      var at := ["plugins", "entries", ws.pluginID, "config", "webSearch"];
      assert Entry(ws.pluginID, ["config", "webSearch"]) == at;
      DivergeAt(at, search, 0);
      DivergeAt(at, fetch, 0);
      SearchThenConfig(c, inp, ws, at, fetched);
    }
  }

  lemma SearchThenConfig(c: Tree, inp: Inputs, ws: WebSearch, at: seq<string>, fetched: Json)
    requires ws.config.Some? && at != []
    requires Diverge(at, ["tools", "web", "search"]) && Diverge(at, ["tools", "web", "fetch"])
    ensures var search, fetch := ["tools", "web", "search"], ["tools", "web", "fetch"];
            var entry := Obj(map["enabled" := Bool(true), "provider" := Str(ws.provider)]);
            var c1 := SetAt(c, search, entry);
            var c2 := if ws.config.value == map[] then c1 else SetAt(c1, at, Obj(ws.config.value));
            var r := if inp.webFetch.Some? then SetAt(c2, fetch, fetched) else c2;
            && GetAt(r, search) == Some(entry)
            && GetAt(r, fetch) == (if inp.webFetch.Some? then Some(fetched) else GetAt(c, fetch))
            && (ws.config.value != map[] ==> GetAt(r, at) == Some(Obj(ws.config.value)))
  {
    var search, fetch := ["tools", "web", "search"], ["tools", "web", "fetch"];
    var entry := Obj(map["enabled" := Bool(true), "provider" := Str(ws.provider)]);
    var c1 := SetAt(c, search, entry);
    GetAfterSet(c, search, entry);
    DivergeAt(search, fetch, 2);
    SetFrame(c, search, entry, fetch);
    var c2 := if ws.config.value == map[] then c1 else SetAt(c1, at, Obj(ws.config.value));
    SetWhen(c1, ws.config.value != map[], at, Obj(ws.config.value), search);
    SetWhen(c1, ws.config.value != map[], at, Obj(ws.config.value), fetch);
    SetWhen(c2, inp.webFetch.Some?, fetch, fetched, search);
    SetWhen(c2, inp.webFetch.Some?, fetch, fetched, at);
  }

  /******* Agent defaults *******/

  lemma DefaultsMean(d: Tree, inp: Inputs, allow: set<string> -> seq<string>)
    ensures var e := CatalogDefaults(d, inp, allow);
            && e != map[]
            && GetAt(e, ["model", "primary"]) == Some(PrimaryModel(Child(d, "model"), inp.primary))
            && GetAt(e, ["model", "fallbacks"]) == Fallbacks(Child(d, "model"), inp.fallbacks)
            && GetAt(e, ["modelPolicy"])
               == Some(if "modelPolicy" in d && d["modelPolicy"].Obj? then d["modelPolicy"]
                       else Obj(map["allow" := StringArr(allow((inp.catalog + Child(d, "models")).Keys))]))
  {
    var e := CatalogDefaults(d, inp, allow);
    assert ["model", "primary"][1..] == ["primary"] && ["model", "fallbacks"][1..] == ["fallbacks"];
    assert "model" in e && e["model"] == Obj(ModelSettings(Child(d, "model"), inp));
  }

  /** The user's primary model, unless it is missing, no text or empty. */
  function PrimaryModel(model: Tree, primary: string): Json {
    match Lookup(model, "primary")
    case Some(Str(s)) => if s == "" then Str(primary) else Str(s)
    case _ => Str(primary)
  }

  function Fallbacks(model: Tree, fallbacks: seq<string>): Option<Json> {
    if "fallbacks" in model then Some(model["fallbacks"])
    else if fallbacks == [] then None
    else Some(StringArr(fallbacks))
  }

  /** Reading below agents.defaults. */
  lemma ReadDefaults(c: Tree, q: seq<string>)
    requires q != []
    ensures GetAt(c, DEFAULTS + q) == GetAt(Defaults(c), q)
  {
    var p := DEFAULTS + q;
    assert p[1..] == ["defaults"] + q && p[1..][1..] == q;
    NothingInEmpty(q);
    NothingInEmpty(p[1..]);
  }

  /** The default agent settings of the final config, from those of the merge. */
  function FinalDefaults(d: Tree, inp: Inputs, allow: set<string> -> seq<string>): Tree {
    var d1 := if inp.userManaged then d else d["skipOptionalBootstrapFiles" := Arr([Str("SOUL.md"), Str("IDENTITY.md")])];
    var d2 := if inp.catalog == map[] then d1 else CatalogDefaults(d1, inp, allow);
    if inp.skipBootstrap then d2["skipBootstrap" := Bool(true)] else d2
  }

  lemma SetOneOf(c: Tree, key: string, v: Json)
    ensures Defaults(SetAt(c, ["agents", "defaults", key], v)) == Defaults(c)[key := v]
  {
    assert ["agents", "defaults", key] == DEFAULTS + [key];
    SetInDefaults(c, key, v);
    SetDefaultsShape(c, Defaults(c)[key := v]);
  }

  lemma SameDefaults(a: Tree, b: Tree)
    requires Lookup(a, "agents") == Lookup(b, "agents")
    ensures Defaults(a) == Defaults(b)
  {
  }

  lemma FirstDefaults(c: Tree)
    ensures Defaults(DisableUpdateCheck(EnforceTrustedProxies(EnforceInfrastructureKeys(c)))) == Defaults(c)
  {
    SameDefaults(c, DisableUpdateCheck(EnforceTrustedProxies(EnforceInfrastructureKeys(c))));
  }

  lemma LastDefaults(c: Tree, inp: Inputs)
    ensures Defaults(InjectAuthMode(InjectRouteHost(c, inp), inp)) == Defaults(c)
  {
    SameDefaults(c, InjectAuthMode(InjectRouteHost(c, inp), inp));
  }

  lemma GatewayDefaults(c: Tree, inp: Inputs)
    ensures Defaults(GatewaySteps(c, inp))
            == if inp.userManaged then Defaults(c)
               else Defaults(c)["skipOptionalBootstrapFiles" := Arr([Str("SOUL.md"), Str("IDENTITY.md")])]
  {
    var c3 := DisableUpdateCheck(EnforceTrustedProxies(EnforceInfrastructureKeys(c)));
    FirstDefaults(c);
    var files := StringArr(["SOUL.md", "IDENTITY.md"]);
    assert files == Arr([Str("SOUL.md"), Str("IDENTITY.md")]);
    SetOneOf(c3, "skipOptionalBootstrapFiles", files);
    LastDefaults(SkipDefaultPersonality(c3, inp), inp);
  }

  lemma LateDefaults(c: Tree, inp: Inputs)
    ensures Defaults(FinalSteps(c, inp)) == if inp.skipBootstrap then Defaults(c)["skipBootstrap" := Bool(true)] else Defaults(c)
  {
    var c1 := InjectDiagnostics(c, inp);
    DiagnosticsKeep(c, inp, {"diagnostics"});
    SameDefaults(c1, c);
    SetOneOf(c1, "skipBootstrap", Bool(true));
    var c2 := InjectSkipBootstrap(c1, inp);
    HookKeeps(c2, inp, {"hooks"});
    SameDefaults(InjectBootstrapHook(c2, inp), c2);
  }

  lemma DefaultsFrom(g: Tree, st: Stages, r: Tree, inp: Inputs, allow: set<string> -> seq<string>)
    requires Disciplined(g, st, r) && st.catalog == InjectModelCatalog(st.plugins, inp, allow)
    ensures Defaults(st.web) == if inp.catalog == map[] then Defaults(g) else CatalogDefaults(Defaults(g), inp, allow)
  {
    Settled(g, st, r);
    SameDefaults(st.web, st.catalog);
    SameDefaults(st.plugins, g);
    SetDefaultsShape(st.plugins, CatalogDefaults(Defaults(st.plugins), inp, allow));
  }

  /** agents.defaults in the final config. */
  lemma DefaultsInConfig(template: Tree, user: Tree, inp: Inputs, owns: bool, allow: set<string> -> seq<string>, r: Tree)
    requires Final(template, user, inp, owns, allow, r)
    ensures Defaults(r) == FinalDefaults(Defaults(DeepMerge(template, user)), inp, allow)
  {
    var m := DeepMerge(template, user);
    EnrichByStages(template, user, inp, owns, allow);
    var g := GatewaySteps(m, inp);
    StepsAreDisciplined(g, inp, owns, allow);
    var st := StagesOf(g, inp, owns, allow);
    DefaultsFrom(g, st, r, inp, allow);
    GatewayDefaults(m, inp);
    LateDefaults(st.web, inp);
  }

  /** ... and what that means at each place. */
  ghost predicate AgentLiterals(m: Tree, r: Tree, inp: Inputs, allow: set<string> -> seq<string>) {
    && (!inp.userManaged ==>
          GetAt(r, ["agents", "defaults", "skipOptionalBootstrapFiles"]) == Some(Arr([Str("SOUL.md"), Str("IDENTITY.md")])))
    && (inp.skipBootstrap ==> GetAt(r, ["agents", "defaults", "skipBootstrap"]) == Some(Bool(true)))
    && (inp.catalog != map[] ==> ModelLiterals(Defaults(m), r, inp, allow))
  }

  ghost predicate ModelLiterals(d: Tree, r: Tree, inp: Inputs, allow: set<string> -> seq<string>) {
    && GetAt(r, ["agents", "defaults", "model", "primary"]) == Some(PrimaryModel(Child(d, "model"), inp.primary))
    && GetAt(r, ["agents", "defaults", "model", "fallbacks"]) == Fallbacks(Child(d, "model"), inp.fallbacks)
    && GetAt(r, ["agents", "defaults", "modelPolicy"])
       == Some(if "modelPolicy" in d && d["modelPolicy"].Obj? then d["modelPolicy"]
               else Obj(map["allow" := StringArr(allow((inp.catalog + Child(d, "models")).Keys))]))
  }

  lemma AgentsInConfig(template: Tree, user: Tree, inp: Inputs, owns: bool, allow: set<string> -> seq<string>, r: Tree)
    requires Final(template, user, inp, owns, allow, r)
    ensures AgentLiterals(DeepMerge(template, user), r, inp, allow)
  {
    DefaultsInConfig(template, user, inp, owns, allow, r);
    AgentsFrom(DeepMerge(template, user), r, inp, allow);
  }

  lemma AgentsFrom(m: Tree, r: Tree, inp: Inputs, allow: set<string> -> seq<string>)
    requires Defaults(r) == FinalDefaults(Defaults(m), inp, allow)
    ensures AgentLiterals(m, r, inp, allow)
  {
    ReadDefaults(r, ["skipOptionalBootstrapFiles"]);
    ReadDefaults(r, ["skipBootstrap"]);
    if inp.catalog != map[] {
      ModelFrom(Defaults(m), r, inp, allow);
    }
  }

  lemma ModelFrom(d: Tree, r: Tree, inp: Inputs, allow: set<string> -> seq<string>)
    requires Defaults(r) == FinalDefaults(d, inp, allow) && inp.catalog != map[]
    ensures ModelLiterals(d, r, inp, allow)
  {
    var d1 := if inp.userManaged then d else d["skipOptionalBootstrapFiles" := Arr([Str("SOUL.md"), Str("IDENTITY.md")])];
    DefaultsMean(d1, inp, allow);
    var e := CatalogDefaults(d1, inp, allow);
    SettingsKept(r, e, inp.skipBootstrap, ["model", "primary"]);
    SettingsKept(r, e, inp.skipBootstrap, ["model", "fallbacks"]);
    SettingsKept(r, e, inp.skipBootstrap, ["modelPolicy"]);
  }

  lemma SettingsKept(r: Tree, e: Tree, skip: bool, q: seq<string>)
    requires q != [] && q[0] != "skipBootstrap" && Defaults(r) == if skip then e["skipBootstrap" := Bool(true)] else e
    ensures GetAt(r, DEFAULTS + q) == GetAt(e, q)
  {
    ReadDefaults(r, q);
    SameHead(Defaults(r), e, q);
  }

  /******* Memory search *******/

  /** Where the merge has no memory search: the provider found, or switched off for want of one. */
  ghost predicate SearchLiterals(r: Tree, inp: Inputs) {
    match inp.embedding
    case Some(provider) => GetAt(r, ["memory", "search", "provider"]) == Some(Str(provider))
    case None => GetAt(r, ["memory", "search", "enabled"]) == Some(Bool(false))
  }

  lemma SearchInConfig(template: Tree, user: Tree, inp: Inputs, owns: bool, allow: set<string> -> seq<string>, r: Tree)
    requires Final(template, user, inp, owns, allow, r) && !HasMemorySearch(DeepMerge(template, user))
    ensures SearchLiterals(r, inp)
  {
    var g, st, final := Trace(template, user, inp, owns, allow);
    SameMemory(st.catalog, DeepMerge(template, user));
    SearchFrom(st.catalog, r, inp, owns);
  }

  lemma SearchFrom(c: Tree, r: Tree, inp: Inputs, owns: bool)
    requires !HasMemorySearch(c) && Lookup(r, "memory") == Lookup(InjectMemoryStack(InjectMemorySearch(c, inp), inp, owns), "memory")
    ensures SearchLiterals(r, inp)
  {
    var provider, on := ["memory", "search", "provider"], ["memory", "search", "enabled"];
    var searched := InjectMemorySearch(c, inp);
    StackOnMemory(searched, inp, owns);
    if inp.embedding.Some? {
      GetAfterSet(c, provider, Str(inp.embedding.value));
      DivergeAt(on, provider, 2);
      SetFrame(searched, on, Bool(true), provider);
      if Lookup(r, "memory") == Lookup(searched, "memory") {
        SameHead(r, searched, provider);
      } else {
        SameHead(r, SetAt(searched, on, Bool(true)), provider);
      }
    } else {
      GetAfterSet(c, on, Bool(false));
      SameHead(r, searched, on);
    }
  }

  /** All of it at once. */
  lemma LiteralValues(template: Tree, user: Tree, inp: Inputs, owns: bool, allow: set<string> -> seq<string>)
    ensures match Enrich(template, user, inp, owns, allow)
            case Err(_) => true
            case Ok(r) =>
              var m := DeepMerge(template, user);
              GatewayLiterals(r, inp) && ToolLiterals(m, r, inp) && AgentLiterals(m, r, inp, allow) && (HasMemorySearch(m) || SearchLiterals(r, inp))
  {
    match Enrich(template, user, inp, owns, allow)
    case Err(_) =>
    case Ok(r) =>
      GatewayValues(template, user, inp, owns, allow);
      ToolsInConfig(template, user, inp, owns, allow, r);
      AgentsInConfig(template, user, inp, owns, allow, r);
      if !HasMemorySearch(DeepMerge(template, user)) {
        SearchInConfig(template, user, inp, owns, allow, r);
      }
  }
}
