/** The second transformation: the 7.2 config rewritten for gateways with the older schema. */
module LegacyConfig {
  import opened Basics
  import opened JsonTree
  import opened ConfigPipeline

  const POLICY := ["agents", "defaults", "modelPolicy"]
  const LEGACY_SEARCH := ["agents", "defaults", "memorySearch"]
  const SEARCH := ["memory", "search"]
  const CODEX := ["models", "providers", "openai-codex"]

  /** Provider entries older gateways expect beside a provider. */
  function Companions(provider: string): seq<string> {
    if provider == "openai" then ["openai-codex"] else []
  }

  /** The wire format of a companion; those of other providers play no part in the rewrite. */
  function WireFormat(companion: string): string {
    if companion == "openai-codex" then "openai-chatgpt-responses" else ""
  }

  function CompanionEntry(provider: Tree, companion: string): Json {
    Obj(DeepMerge(provider, if WireFormat(companion) != "" then map["api" := Str(WireFormat(companion))] else map[]))
  }

  function AddCompanions(providers: Tree): Tree {
    if "openai" in providers && providers["openai"].Obj? && "openai-codex" !in providers
    then providers["openai-codex" := CompanionEntry(providers["openai"].fields, "openai-codex")]
    else providers
  }

  /** The loop over a copy of the providers, in any order. */
  method AddCompanionProviders(providers: Tree) returns (r: Tree)
    ensures r == AddCompanions(providers)
  {
    r := providers;
    var rest := providers.Keys;
    while rest != {}
      invariant rest <= providers.Keys
      invariant r == if "openai" in rest then providers else AddCompanions(providers)
      decreases |rest|
    {
      var name :| name in rest;
      rest := rest - {name};
      if providers[name].Obj? {
        var companions := Companions(name);
        for i := 0 to |companions|
          invariant r == if "openai" in rest || (name == "openai" && i == 0) then providers else AddCompanions(providers)
        {
          if companions[i] !in r {
            r := r[companions[i] := CompanionEntry(providers[name].fields, companions[i])];
          }
        }
      }
    }
  }

  function LegacyDefaults(c: Tree): Tree {
    var defaults := Defaults(c) - {"modelPolicy"};
    if HasMemorySearch(c) && "memorySearch" !in defaults
    then defaults["memorySearch" := c["memory"].fields["search"]]
    else defaults
  }

  /** Drops memory.search, and memory itself once it is empty. */
  function DropSearch(c: Tree): Tree {
    if "memory" in c && c["memory"].Obj? then
      var memory := c["memory"].fields - {"search"};
      if memory == map[] then c - {"memory"} else c["memory" := Obj(memory)]
    else c
  }

  function WithCompanions(c: Tree): Tree {
    if "models" in c && c["models"].Obj? then
      var models := c["models"].fields;
      if "providers" in models && models["providers"].Obj?
      then c["models" := Obj(models["providers" := Obj(AddCompanions(models["providers"].fields))])]
      else c
    else c
  }

  /** `noPairing`: whether spec.auth disables device pairing, which is the default. */
  function Legacy(c: Tree, noPairing: bool): Tree {
    var c1 := SetAt(c, DEFAULTS, Obj(LegacyDefaults(c)));
    var c2 := DropSearch(c1);
    var c3 := SetAt(c2, UI_NO_DEVICE_AUTH, Bool(noPairing));
    WithCompanions(c3)
  }

  /******* Its pieces *******/

  lemma AgentsPart(c: Tree, q: seq<string>)
    requires q != [] && Diverge(q, POLICY) && Diverge(q, LEGACY_SEARCH)
    ensures GetAt(SetAt(c, DEFAULTS, Obj(LegacyDefaults(c))), q) == GetAt(c, q)
  {
    var p := DEFAULTS;
    var defaults := Defaults(c);
    if |q| >= 3 && q[0] == "agents" && q[1] == "defaults" {
      assert q == p + q[2..];
      assert POLICY == p + ["modelPolicy"] && LEGACY_SEARCH == p + ["memorySearch"];
      assert q[2] != "modelPolicy" && q[2] != "memorySearch" by {
        assert q[2] == "modelPolicy" ==> POLICY <= q;
        assert q[2] == "memorySearch" ==> LEGACY_SEARCH <= q;
      }
      assert q[1..][0] == "defaults" && q[1..][1..] == q[2..];
      assert Lookup(LegacyDefaults(c), q[2]) == Lookup(defaults, q[2]);
      GetThrough(SetAt(c, p, Obj(LegacyDefaults(c))), q);
      GetThrough(c, q);
    } else {
      assert Diverge(p, q) by {
      }
      SetFrame(c, p, Obj(LegacyDefaults(c)), q);
    }
  }

  /** Reading three or more keys deep goes through the two maps above. */
  lemma GetThrough(m: Tree, q: seq<string>)
    requires |q| >= 3
    ensures GetAt(m, q) == GetAt(Child(Child(m, q[0]), q[1]), q[2..])
  {
    assert q[1..][1..] == q[2..] && q[1..][0] == q[1];
    if q[0] !in m || q[1] !in Child(m, q[0]) {
      NothingInEmpty(q[2..]);
    }
  }

  lemma MemoryPart(c: Tree, q: seq<string>)
    requires q != [] && Diverge(q, SEARCH)
    ensures GetAt(DropSearch(c), q) == GetAt(c, q)
  {
    if q[0] == "memory" {
      assert |q| > 1 by {
        assert |q| == 1 ==> q <= SEARCH;
      }
      assert q[1] != "search" by {
        assert q[1] == "search" ==> SEARCH <= q;
      }
      if "memory" in c && c["memory"].Obj? {
        var memory := c["memory"].fields;
        assert Lookup(memory - {"search"}, q[1]) == Lookup(memory, q[1]);
        NothingInEmpty(q[1..]);
      }
    }
  }

  lemma ModelsPart(c: Tree, q: seq<string>)
    requires q != [] && Diverge(q, CODEX)
    ensures GetAt(WithCompanions(c), q) == GetAt(c, q)
  {
    if q[0] == "models" && WithCompanions(c) != c {
      var p := ["models", "providers"];
      var providers := Child(Child(c, "models"), "providers");
      if |q| >= 3 && q[1] == "providers" {
        assert q[2] != "openai-codex" by {
          assert q[2] == "openai-codex" ==> CODEX <= q;
        }
        GetThrough(c, q);
        GetThrough(WithCompanions(c), q);
      } else {
        assert |q| > 1 && q[1] != "providers" by {
          assert |q| == 1 ==> q <= CODEX;
          assert |q| == 2 && q[1] == "providers" ==> q == p && p <= CODEX;
        }
        assert GetAt(WithCompanions(c), q) == GetAt(WithCompanions(c)["models"].fields, q[1..]);
      }
    }
  }

  /**
   The legacy config differs from the current one only at the model policy, the two places
   of memory search, the device-auth flag and the companion provider, or at a map above one
   of them: every path apart from these reads the same.
   */
  lemma LegacyDiffersOnlyThere(c: Tree, noPairing: bool, q: seq<string>)
    requires q != []
    requires Diverge(q, POLICY) && Diverge(q, LEGACY_SEARCH) && Diverge(q, SEARCH)
    requires Diverge(q, UI_NO_DEVICE_AUTH) && Diverge(q, CODEX)
    ensures GetAt(Legacy(c, noPairing), q) == GetAt(c, q)
  {
    var c1 := SetAt(c, DEFAULTS, Obj(LegacyDefaults(c)));
    AgentsPart(c, q);
    var c2 := DropSearch(c1);
    MemoryPart(c1, q);
    SetFrame(c2, UI_NO_DEVICE_AUTH, Bool(noPairing), q);
    ModelsPart(SetAt(c2, UI_NO_DEVICE_AUTH, Bool(noPairing)), q);
  }

  lemma AgentsStep(c: Tree, k: string)
    ensures var c1 := SetAt(c, DEFAULTS, Obj(LegacyDefaults(c)));
            Lookup(c1, k) == if k == "agents" then Some(Obj(Child(c, "agents")["defaults" := Obj(LegacyDefaults(c))])) else Lookup(c, k)
  {
    assert DEFAULTS[1..] == ["defaults"];
  }

  /** Each top-level key of a legacy config depends on one of the four steps. */
  function LegacyAt(c: Tree, noPairing: bool, k: string): Option<Json> {
    if k == "agents" then Some(Obj(Child(c, "agents")["defaults" := Obj(LegacyDefaults(c))]))
    else if k == "memory" then Lookup(DropSearch(c), k)
    else if k == "gateway" then Lookup(SetAt(c, UI_NO_DEVICE_AUTH, Bool(noPairing)), k)
    else if k == "models" then Lookup(WithCompanions(c), k)
    else Lookup(c, k)
  }

  lemma DropSearchAt(a: Tree, b: Tree, k: string)
    requires Lookup(a, "memory") == Lookup(b, "memory") && (k != "memory" ==> Lookup(a, k) == Lookup(b, k))
    ensures Lookup(DropSearch(a), k) == Lookup(if k == "memory" then DropSearch(b) else b, k)
  {
  }

  lemma SetFlagAt(a: Tree, b: Tree, v: Json, k: string)
    requires Lookup(a, k) == Lookup(b, k)
    ensures Lookup(SetAt(a, UI_NO_DEVICE_AUTH, v), k) == Lookup(if k == "gateway" then SetAt(b, UI_NO_DEVICE_AUTH, v) else b, k)
  {
    if k == "gateway" {
      SetDependsOnHead(a, b, UI_NO_DEVICE_AUTH, v);
    }
  }

  lemma CompanionsAt(a: Tree, b: Tree, k: string)
    requires Lookup(a, k) == Lookup(b, k)
    ensures Lookup(WithCompanions(a), k) == Lookup(if k == "models" then WithCompanions(b) else b, k)
  {
    if k == "models" {
      ModelsDependOnHead(a, b);
    }
  }

  /** The first two steps at one key. */
  function MovedAt(c: Tree, k: string): Option<Json> {
    if k == "agents" then Some(Obj(Child(c, "agents")["defaults" := Obj(LegacyDefaults(c))]))
    else Lookup(if k == "memory" then DropSearch(c) else c, k)
  }

  lemma MovedShape(c: Tree, k: string)
    ensures Lookup(DropSearch(SetAt(c, DEFAULTS, Obj(LegacyDefaults(c)))), k) == MovedAt(c, k)
  {
    var c1 := SetAt(c, DEFAULTS, Obj(LegacyDefaults(c)));
    AgentsStep(c, k);
    AgentsStep(c, "memory");
    DropSearchAt(c1, if k == "agents" then c1 else c, k);
  }

  lemma LegacyShape(c: Tree, noPairing: bool, k: string)
    ensures Lookup(Legacy(c, noPairing), k) == LegacyAt(c, noPairing, k)
  {
    var c2 := DropSearch(SetAt(c, DEFAULTS, Obj(LegacyDefaults(c))));
    MovedShape(c, k);
    var other := if k == "agents" || k == "memory" then c2 else c;
    SetFlagAt(c2, other, Bool(noPairing), k);
    var c3 := SetAt(c2, UI_NO_DEVICE_AUTH, Bool(noPairing));
    CompanionsAt(c3, if k == "gateway" then SetAt(c, UI_NO_DEVICE_AUTH, Bool(noPairing)) else other, k);
  }

  /**
   Memory search moves to its legacy place unless a legacy value is there already; the model
   policy is gone and the device-auth flag is the Claw's.
   */
  lemma LegacyPlaces(c: Tree, noPairing: bool)
    ensures var r := Legacy(c, noPairing);
            && GetAt(r, LEGACY_SEARCH) == (if GetAt(c, LEGACY_SEARCH).Some? then GetAt(c, LEGACY_SEARCH) else GetAt(c, SEARCH))
            && GetAt(r, SEARCH).None?
            && GetAt(r, POLICY).None?
            && GetAt(r, UI_NO_DEVICE_AUTH) == Some(Bool(noPairing))
  {
    var r := Legacy(c, noPairing);
    LegacyShape(c, noPairing, "agents");
    LegacyShape(c, noPairing, "memory");
    LegacyShape(c, noPairing, "gateway");
    AgentsPlaces(r, c);
    assert SEARCH[1..] == ["search"];
    GetAfterSet(c, UI_NO_DEVICE_AUTH, Bool(noPairing));
  }

  /** A companion's entry is the provider's, apart from the wire format. */
  lemma EntryReads(provider: Tree)
    ensures var entry := CompanionEntry(provider, "openai-codex");
            entry.Obj? && forall k :: Lookup(entry.fields, k) == if k == "api" then Some(Str("openai-chatgpt-responses")) else Lookup(provider, k)
  {
  }

  /**
   An OpenAI provider without the companion gets one: the provider's own entry, spoken to in
   the companion's wire format.  Otherwise the companion's place is left as it is.
   */
  lemma CompanionReads(c: Tree, noPairing: bool)
    ensures var r := Legacy(c, noPairing);
            var openai, codex := GetAt(c, ["models", "providers", "openai"]), GetAt(c, ["models", "providers", "openai-codex"]);
            if codex.None? && openai.Some? && openai.value.Obj? then
              && GetAt(r, ["models", "providers", "openai-codex"]).Some?
              && var entry := GetAt(r, ["models", "providers", "openai-codex"]).value;
                 && entry.Obj? && Lookup(entry.fields, "api") == Some(Str("openai-chatgpt-responses"))
                 && forall k | k != "api" :: Lookup(entry.fields, k) == Lookup(openai.value.fields, k)
            else GetAt(r, ["models", "providers", "openai-codex"]) == codex
  {
    var r := Legacy(c, noPairing);
    var codex, openai := ["models", "providers", "openai-codex"], ["models", "providers", "openai"];
    LegacyShape(c, noPairing, "models");
    assert codex[2..] == ["openai-codex"] && openai[2..] == ["openai"];
    GetThrough(r, codex);
    GetThrough(c, codex);
    GetThrough(c, openai);
    var providers := Child(Child(c, "models"), "providers");
    if "openai" in providers && providers["openai"].Obj? {
      EntryReads(providers["openai"].fields);
    }
  }

  lemma AgentsPlaces(r: Tree, c: Tree)
    requires Lookup(r, "agents") == Some(Obj(Child(c, "agents")["defaults" := Obj(LegacyDefaults(c))]))
    ensures GetAt(r, LEGACY_SEARCH) == (if GetAt(c, LEGACY_SEARCH).Some? then GetAt(c, LEGACY_SEARCH) else GetAt(c, SEARCH))
    ensures GetAt(r, POLICY).None?
  {
    GetThrough(r, LEGACY_SEARCH);
    GetThrough(c, LEGACY_SEARCH);
    GetThrough(r, POLICY);
    assert LEGACY_SEARCH[2..] == ["memorySearch"] && POLICY[2..] == ["modelPolicy"] && SEARCH[1..] == ["search"];
    assert Defaults(r) == LegacyDefaults(c);
  }

  lemma DropSearchTwice(c: Tree)
    ensures DropSearch(DropSearch(c)) == DropSearch(c)
    ensures !HasMemorySearch(DropSearch(c))
  {
    if "memory" in c && c["memory"].Obj? {
      var memory := c["memory"].fields - {"search"};
      assert memory - {"search"} == memory;
    }
  }

  lemma WithCompanionsTwice(c: Tree)
    ensures WithCompanions(WithCompanions(c)) == WithCompanions(c)
  {
    if "models" in c && c["models"].Obj? && "providers" in c["models"].fields && c["models"].fields["providers"].Obj? {
      var models := c["models"].fields;
      var providers := AddCompanions(models["providers"].fields);
      assert AddCompanions(providers) == providers;
      var w := models["providers" := Obj(providers)];
      assert w["providers" := Obj(providers)] == w;
      assert WithCompanions(c) == c["models" := Obj(w)];
    }
  }

  lemma {:induction false} SetTwice(m: Tree, p: seq<string>, v: Json)
    requires p != []
    ensures SetAt(SetAt(m, p, v), p, v) == SetAt(m, p, v)
    decreases |p|
  {
    if |p| > 1 {
      SetTwice(Child(m, p[0]), p[1..], v);
    }
  }

  lemma SetDependsOnHead(a: Tree, b: Tree, p: seq<string>, v: Json)
    requires p != [] && Lookup(a, p[0]) == Lookup(b, p[0])
    ensures Lookup(SetAt(a, p, v), p[0]) == Lookup(SetAt(b, p, v), p[0])
  {
  }

  lemma ModelsDependOnHead(a: Tree, b: Tree)
    requires Lookup(a, "models") == Lookup(b, "models")
    ensures Lookup(WithCompanions(a), "models") == Lookup(WithCompanions(b), "models")
  {
  }

  lemma SameLookups(a: Tree, b: Tree)
    requires forall k :: Lookup(a, k) == Lookup(b, k)
    ensures a == b
  {
    assert forall k :: k in a <==> Lookup(a, k).Some?;
    assert forall k :: k in b <==> Lookup(b, k).Some?;
    assert forall k :: k in a ==> a[k] == Lookup(a, k).value && b[k] == Lookup(b, k).value;
  }

  lemma DefaultsTwice(c: Tree, r: Tree)
    requires Defaults(r) == LegacyDefaults(c) && !HasMemorySearch(r)
    ensures LegacyDefaults(r) == LegacyDefaults(c)
  {
    assert LegacyDefaults(c) - {"modelPolicy"} == LegacyDefaults(c);
  }

  /** Downgrading a legacy config again changes nothing. */
  lemma LegacyIdempotent(c: Tree, noPairing: bool)
    ensures Legacy(Legacy(c, noPairing), noPairing) == Legacy(c, noPairing)
  {
    var r := Legacy(c, noPairing);
    var rr := Legacy(r, noPairing);
    forall k ensures Lookup(rr, k) == Lookup(r, k) {
      LegacyShape(r, noPairing, k);
      LegacyTwiceAt(c, noPairing, k);
    }
    SameLookups(rr, r);
  }

  lemma LegacyTwiceAt(c: Tree, noPairing: bool, k: string)
    ensures LegacyAt(Legacy(c, noPairing), noPairing, k) == Lookup(Legacy(c, noPairing), k)
  {
    var r := Legacy(c, noPairing);
    LegacyShape(c, noPairing, k);
    if k == "agents" {
      LegacyShape(c, noPairing, "memory");
      DropSearchTwice(c);
      var agents := Child(c, "agents")["defaults" := Obj(LegacyDefaults(c))];
      assert Child(r, "agents") == agents;
      DefaultsTwice(c, r);
      assert agents["defaults" := Obj(LegacyDefaults(c))] == agents;
    } else if k == "memory" {
      DropSearchTwice(c);
    } else if k == "models" {
      WithCompanionsTwice(c);
      ModelsDependOnHead(r, WithCompanions(c));
    } else if k == "gateway" {
      SetTwice(c, UI_NO_DEVICE_AUTH, Bool(noPairing));
      SetDependsOnHead(r, SetAt(c, UI_NO_DEVICE_AUTH, Bool(noPairing)), UI_NO_DEVICE_AUTH, Bool(noPairing));
    }
  }

  /** `legacyOperatorJSON` on its private copy of the current config, step by step. */
  method Downgrade(current: Tree, noPairing: bool) returns (legacy: Tree)
    ensures legacy == Legacy(current, noPairing)
  {
    legacy := current;
    var defaults := Defaults(legacy) - {"modelPolicy"};
    var memory := Child(legacy, "memory");
    if "memory" in legacy && legacy["memory"].Obj? && "search" in memory && "memorySearch" !in defaults {
      defaults := defaults["memorySearch" := memory["search"]];
    }
    legacy := SetAt(legacy, DEFAULTS, Obj(defaults));
    AgentsStep(current, "memory");
    if "memory" in legacy && legacy["memory"].Obj? {
      memory := memory - {"search"};
      if memory == map[] {
        legacy := legacy - {"memory"};
      } else {
        legacy := legacy["memory" := Obj(memory)];
      }
    }
    assert legacy == DropSearch(SetAt(current, DEFAULTS, Obj(LegacyDefaults(current))));
    legacy := SetAt(legacy, UI_NO_DEVICE_AUTH, Bool(noPairing));
    legacy := AddCompanionsInModels(legacy);
  }

  method AddCompanionsInModels(config: Tree) returns (legacy: Tree)
    ensures legacy == WithCompanions(config)
  {
    legacy := config;
    if "models" in legacy && legacy["models"].Obj? {
      var models := legacy["models"].fields;
      if "providers" in models && models["providers"].Obj? {
        var providers := AddCompanionProviders(models["providers"].fields);
        legacy := legacy["models" := Obj(models["providers" := Obj(providers)])];
      }
    }
  }
}
