/** What the ownership flag does to the final config, where it is right and where it is wrong. */
module MemoryFlag {
  import opened Basics
  import opened JsonTree
  import opened ConfigPipeline
  import opened ConfigTheorems
  import opened ConfigContents
  import opened PluginSettings
  import opened MemoryOwnership

  const SEARCH_ENABLED := ["memory", "search", "enabled"]

  /** With the flag the operator computes, a memory search the user set is never overridden. */
  lemma UserSearchStands(template: Tree, raw: Tree, inp: Inputs, allow: set<string> -> seq<string>, r: Tree)
    requires Enrich(template, raw, inp, OwnsFlag(template, raw), allow) == Ok(r) && HasMemorySearch(raw)
    ensures Lookup(r, "memory") == Lookup(DeepMerge(template, raw), "memory") && HasMemorySearch(r)
  {
    UserMemorySearchWins(template, raw, inp, OwnsFlag(template, raw), allow);
  }

  lemma MemoryAfterTools(c: Tree, inp: Inputs)
    requires ToolSteps(c, inp).Ok?
    ensures Lookup(ToolSteps(c, inp).value, "memory") == Lookup(c, "memory")
  {
    var c1 := InjectChannels(c, inp.channels.value);
    ChannelsKeep(c, inp.channels.value, {"channels", "plugins"});
    var c2 := InjectMcpServers(c1, inp.mcpServers);
    McpKeeps(c1, inp.mcpServers, {"mcp"});
    WebSearchKeeps(c2, inp, {"tools", "plugins"});
  }

  /** The tools and the final steps leave the memory key alone. */
  lemma MemoryAfterStack(c: Tree, inp: Inputs)
    requires ToolSteps(c, inp).Ok?
    ensures Lookup(FinalSteps(ToolSteps(c, inp).value, inp), "memory") == Lookup(c, "memory")
  {
    MemoryAfterTools(c, inp);
    FinalKeepsKey(ToolSteps(c, inp).value, inp, "memory");
  }

  lemma MemoryAfterCatalog(c: Tree, inp: Inputs, allow: set<string> -> seq<string>, providers: Tree)
    ensures Lookup(InjectModelCatalog(InjectProviderPlugins(InjectProviders(c, providers), inp.vertexPlugins), inp, allow), "memory")
            == Lookup(c, "memory")
  {
    var p := InjectProviders(c, providers);
    ProvidersKeepKey(c, providers, "memory");
    var v := InjectProviderPlugins(p, inp.vertexPlugins);
    PluginsKeep(p, inp.vertexPlugins, {"plugins"});
    CatalogKeeps(v, inp, allow, {"agents"});
  }

  /** The config just before the memory search is injected has the merge's memory key. */
  lemma MemoryBeforeSearch(c: Tree, inp: Inputs, allow: set<string> -> seq<string>, providers: Tree)
    ensures var v := InjectProviderPlugins(InjectProviders(GatewaySteps(c, inp), providers), inp.vertexPlugins);
            Lookup(InjectModelCatalog(v, inp, allow), "memory") == Lookup(c, "memory")
  {
    GatewayKeepsKey(c, inp, "memory");
    MemoryAfterCatalog(GatewaySteps(c, inp), inp, allow, providers);
  }

  /** The layers only touch plugins. */
  lemma MemoryAfterLayers(c: Tree, inp: Inputs)
    ensures Lookup(Layered(c, inp), "memory") == Lookup(c, "memory")
  {
    SeededLayersKeep(c, inp);
  }

  /** Memory search as injected for a provider, before and after the stack's repair. */
  lemma RepairedOnlyIfNotOwned(c: Tree, inp: Inputs)
    requires inp.embedding.Some? && !HasMemorySearch(c)
    ensures var d := InjectMemorySearch(c, inp);
            && GetAt(StackBase(d, inp, true), SEARCH_ENABLED).None?
            && GetAt(StackBase(d, inp, false), SEARCH_ENABLED) == Some(Bool(true))
  {
    var p := ["memory", "search", "provider"];
    DivergeAt(p, SEARCH_ENABLED, 2);
    SetFrame(c, p, Str(inp.embedding.value), SEARCH_ENABLED);
    GetAfterSet(InjectMemorySearch(c, inp), SEARCH_ENABLED, Bool(true));
  }

  lemma ToolsSucceedAlike(c: Tree, d: Tree, inp: Inputs)
    ensures ToolSteps(c, inp).Ok? == ToolSteps(d, inp).Ok?
  {
  }

  lemma StackIrrelevant(c: Tree, inp: Inputs, allow: set<string> -> seq<string>, providers: Tree)
    requires !StackOn(c, inp) || inp.embedding.None?
    ensures var before := BeforeStack(c, inp, allow, providers);
            InjectMemoryStack(before, inp, true) == InjectMemoryStack(before, inp, false)
  {
    SlotsBeforeLayers(c, inp, allow, providers);
    SameStack(BeforeStack(c, inp, allow, providers), inp);
  }

  /** Where the stack does not repair anything the flag has no effect. */
  lemma FlagIrrelevant(template: Tree, raw: Tree, inp: Inputs, allow: set<string> -> seq<string>)
    requires !StackOn(DeepMerge(template, raw), inp) || inp.embedding.None?
    ensures Enrich(template, raw, inp, true, allow) == Enrich(template, raw, inp, false, allow)
  {
    if inp.providers.Some? {
      StackIrrelevant(DeepMerge(template, raw), inp, allow, inp.providers.value);
    }
  }

  lemma SameStack(c: Tree, inp: Inputs)
    requires !StackOn(c, inp) || inp.embedding.None?
    ensures InjectMemoryStack(c, inp, true) == InjectMemoryStack(c, inp, false)
  {
  }

  lemma EnabledByFlag(template: Tree, raw: Tree, inp: Inputs, owns: bool, allow: set<string> -> seq<string>, r: Tree)
    requires Enrich(template, raw, inp, owns, allow) == Ok(r)
    requires StackOn(DeepMerge(template, raw), inp) && inp.embedding.Some? && !HasMemorySearch(DeepMerge(template, raw))
    ensures GetAt(r, SEARCH_ENABLED) == if owns then None else Some(Bool(true))
  {
    var merged := DeepMerge(template, raw);
    var before := BeforeStack(merged, inp, allow, inp.providers.value);
    SlotsBeforeLayers(merged, inp, allow, inp.providers.value);
    StackLayers(before, inp, owns);
    MemoryAfterStack(InjectMemoryStack(before, inp, owns), inp);
    MemoryAfterLayers(StackBase(before, inp, owns), inp);
    ConfigTheorems.SameHead(r, StackBase(before, inp, owns), SEARCH_ENABLED);
    MemoryBeforeSearch(merged, inp, allow, inp.providers.value);
    var c := InjectModelCatalog(InjectProviderPlugins(InjectProviders(GatewaySteps(merged, inp), inp.providers.value), inp.vertexPlugins), inp, allow);
    ConfigContents.SameMemory(merged, c);
    RepairedOnlyIfNotOwned(c, inp);
  }

  /** Where a layer is injected for a provider and no memory search is set, the flag decides the switch. */
  lemma RepairByFlag(template: Tree, raw: Tree, inp: Inputs, allow: set<string> -> seq<string>)
    requires StackOn(DeepMerge(template, raw), inp) && inp.embedding.Some? && !HasMemorySearch(DeepMerge(template, raw))
    ensures var (owned, free) := (Enrich(template, raw, inp, true, allow), Enrich(template, raw, inp, false, allow));
            && owned.Ok? == free.Ok?
            && (owned.Ok? ==> GetAt(owned.value, SEARCH_ENABLED).None? && GetAt(free.value, SEARCH_ENABLED) == Some(Bool(true)))
  {
    if inp.providers.Some? {
      var before := BeforeStack(DeepMerge(template, raw), inp, allow, inp.providers.value);
      ToolsSucceedAlike(InjectMemoryStack(before, inp, true), InjectMemoryStack(before, inp, false), inp);
    }
    var owned, free := Enrich(template, raw, inp, true, allow), Enrich(template, raw, inp, false, allow);
    if owned.Ok? {
      EnabledByFlag(template, raw, inp, true, allow, owned.value);
      EnabledByFlag(template, raw, inp, false, allow, free.value);
    }
  }

  /** A flag that is wrong is true where the merge has no memory search, or the search is the template's. */
  lemma WrongFlagIsTrue(template: Tree, raw: Tree)
    requires OwnsFlag(template, raw) != HasMemorySearch(raw)
    ensures OwnsFlag(template, raw) && !HasMemorySearch(raw) && !HasMemorySearch(DeepMerge(template, raw))
  {
    ConfigContents.SameMemory(DeepMerge(template, raw), raw);
  }

  /**
   Where the flag is wrong: the enrichment succeeds or fails as it would with the right flag.
   If a memory layer is injected and an embedding provider is there, the switch that repairs a
   stale "disabled" is missing from the config though a right flag would set it; otherwise the
   configs are the same.
   */
  lemma WrongFlagLosesRepair(template: Tree, raw: Tree, inp: Inputs, allow: set<string> -> seq<string>)
    requires OwnsFlag(template, raw) != HasMemorySearch(raw)
    ensures var (got, right) := (Enrich(template, raw, inp, OwnsFlag(template, raw), allow), Enrich(template, raw, inp, HasMemorySearch(raw), allow));
            && got.Ok? == right.Ok?
            && (if StackOn(DeepMerge(template, raw), inp) && inp.embedding.Some? then
                  got.Ok? ==> GetAt(got.value, SEARCH_ENABLED).None? && GetAt(right.value, SEARCH_ENABLED) == Some(Bool(true))
                else got == right)
  {
    WrongFlagIsTrue(template, raw);
    if StackOn(DeepMerge(template, raw), inp) && inp.embedding.Some? {
      RepairByFlag(template, raw, inp, allow);
    } else {
      FlagIrrelevant(template, raw, inp, allow);
    }
  }
}
