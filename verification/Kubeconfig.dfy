/**
 Kubeconfig validation in the controller against the token table of the proxy's Kubernetes
 injector.  The two sides key servers differently: validation keeps the case of the host
 name, the injector folds it.  `url.Parse` is a parameter.
 */
module Kubeconfig {
  import opened Basics
  import opened Strings

  datatype User = User(clientCertificate: bool, exec: bool, authProvider: bool, tokenFile: bool, basicAuth: bool, token: string)
  datatype Cluster = Cluster(server: string, caFile: bool)
  datatype Context = Context(cluster: string, user: string)
  datatype Config = Config(users: map<string, User>, clusters: map<string, Cluster>, contexts: map<string, Context>)

  /** Host name and port of a URL, each possibly empty; None where the URL does not parse. */
  datatype Url = Url(hostname: string, port: string)
  type Parser = string -> Option<Url>

  datatype Refusal =
    | UnsupportedAuth(user: string)
    | NoToken(user: string)
    | NoServer(cluster: string)
    | CertificateFile(cluster: string)
    | BadServer(cluster: string)
    | ConflictingTokens(context: string)

  predicate Unsupported(u: User) {
    u.clientCertificate || u.exec || u.authProvider || u.tokenFile || u.basicAuth
  }

  /** `parseServerURL`: port 443 unless given. */
  function ServerOf(parse: Parser, server: string): Option<Url> {
    match parse(server)
    case None => None
    case Some(u) => if u.hostname == "" then None else Some(Url(u.hostname, if u.port == "" then "443" else u.port))
  }

  function KeyOf(u: Url): string {
    u.hostname + ":" + u.port
  }

  /** The injector's key of the same server. */
  function FoldedKeyOf(u: Url): string {
    Lower(u.hostname) + ":" + u.port
  }

  predicate Resolvable(parse: Parser, cfg: Config, name: string) {
    && name in cfg.contexts
    && cfg.contexts[name].cluster in cfg.clusters
    && cfg.contexts[name].user in cfg.users
    && ServerOf(parse, cfg.clusters[cfg.contexts[name].cluster].server).Some?
  }

  function ContextUrl(parse: Parser, cfg: Config, name: string): Url
    requires Resolvable(parse, cfg, name)
  {
    ServerOf(parse, cfg.clusters[cfg.contexts[name].cluster].server).value
  }

  function TokenOf(parse: Parser, cfg: Config, name: string): string
    requires Resolvable(parse, cfg, name)
  {
    cfg.users[cfg.contexts[name].user].token
  }

  /******* Validation *******/

  ghost predicate UsersFine(cfg: Config) {
    forall u | u in cfg.users :: !Unsupported(cfg.users[u]) && cfg.users[u].token != ""
  }

  ghost predicate ClustersFine(parse: Parser, cfg: Config) {
    forall c | c in cfg.clusters :: cfg.clusters[c].server != "" && !cfg.clusters[c].caFile && ServerOf(parse, cfg.clusters[c].server).Some?
  }

  /** Contexts whose servers have the same key use the same token. */
  ghost predicate OneTokenPer(parse: Parser, cfg: Config, key: Url -> string) {
    forall a, b | Resolvable(parse, cfg, a) && Resolvable(parse, cfg, b) && key(ContextUrl(parse, cfg, a)) == key(ContextUrl(parse, cfg, b)) ::
      TokenOf(parse, cfg, a) == TokenOf(parse, cfg, b)
  }

  ghost predicate Acceptable(parse: Parser, cfg: Config) {
    UsersFine(cfg) && ClustersFine(parse, cfg) && OneTokenPer(parse, cfg, KeyOf)
  }

  /** The reason given for a refusal is true of the config. */
  ghost predicate Justified(parse: Parser, cfg: Config, r: Refusal) {
    match r
    case UnsupportedAuth(u) => u in cfg.users && Unsupported(cfg.users[u])
    case NoToken(u) => u in cfg.users && cfg.users[u].token == ""
    case NoServer(c) => c in cfg.clusters && cfg.clusters[c].server == ""
    case CertificateFile(c) => c in cfg.clusters && cfg.clusters[c].caFile
    case BadServer(c) => c in cfg.clusters && ServerOf(parse, cfg.clusters[c].server).None?
    case ConflictingTokens(a) =>
      exists b :: Resolvable(parse, cfg, a) && Resolvable(parse, cfg, b)
               && KeyOf(ContextUrl(parse, cfg, a)) == KeyOf(ContextUrl(parse, cfg, b)) && TokenOf(parse, cfg, a) != TokenOf(parse, cfg, b)
  }

  /** The servers of these clusters, each perhaps more than once. */
  ghost predicate ServersOf(parse: Parser, cfg: Config, clusters: set<string>, servers: seq<Url>) {
    forall u :: u in servers <==> exists c :: c in clusters && c in cfg.clusters && ServerOf(parse, cfg.clusters[c].server) == Some(u)
  }

  /**
   `parseAndValidateKubeconfig`: accepts exactly the acceptable configs, in whatever order the
   maps are walked, and hands on the servers of all clusters.
   */
  method ParseAndValidateKubeconfig(parse: Parser, cfg: Config) returns (refusal: Option<Refusal>, servers: seq<Url>)
    ensures refusal.None? <==> Acceptable(parse, cfg)
    ensures refusal.Some? ==> Justified(parse, cfg, refusal.value)
    ensures refusal.None? ==> ServersOf(parse, cfg, cfg.clusters.Keys, servers)
  {
    servers := [];
    refusal := ValidateUsers(cfg, parse);
    if refusal.Some? {
      return;
    }
    refusal, servers := ValidateClusters(parse, cfg);
    if refusal.Some? {
      return;
    }
    refusal := ValidateTokens(parse, cfg);
  }

  /** An accepted config has token users only, and inline certificates only. */
  lemma AcceptedMeans(parse: Parser, cfg: Config)
    requires Acceptable(parse, cfg)
    ensures forall n | n in cfg.users :: exists token :: token != "" && cfg.users[n] == User(false, false, false, false, false, token)
    ensures forall n | n in cfg.clusters :: exists server :: server != "" && cfg.clusters[n] == Cluster(server, false)
    ensures forall n | n in cfg.clusters :: exists u :: parse(cfg.clusters[n].server) == Some(u) && u.hostname != ""
  {
    forall n | n in cfg.users ensures exists token :: token != "" && cfg.users[n] == User(false, false, false, false, false, token) {
      assert !Unsupported(cfg.users[n]) && cfg.users[n].token != "";
      assert cfg.users[n] == User(false, false, false, false, false, cfg.users[n].token);
    }
    forall n | n in cfg.clusters ensures exists server :: server != "" && cfg.clusters[n] == Cluster(server, false) {
      assert cfg.clusters[n] == Cluster(cfg.clusters[n].server, false);
    }
    forall n | n in cfg.clusters ensures exists u :: parse(cfg.clusters[n].server) == Some(u) && u.hostname != "" {
      assert ServerOf(parse, cfg.clusters[n].server).Some?;
    }
  }

  /** A config with one token user and one cluster is accepted, on the port given or 443. */
  lemma PlainConfigIsAccepted(parse: Parser, token: string, server: string, h: string, port: string)
    requires token != "" && server != "" && parse(server) == Some(Url(h, port)) && h != ""
    ensures var cfg := Config(map["u" := User(false, false, false, false, false, token)], map["c" := Cluster(server, false)],
                              map["x" := Context("c", "u")]);
            && Acceptable(parse, cfg) && Resolvable(parse, cfg, "x")
            && TokenOf(parse, cfg, "x") == token
            && KeyOf(ContextUrl(parse, cfg, "x")) == h + ":" + (if port == "" then "443" else port)
  {
    var cfg := Config(map["u" := User(false, false, false, false, false, token)], map["c" := Cluster(server, false)],
                      map["x" := Context("c", "u")]);
    assert cfg.users["u"].token == token;
    assert forall a | Resolvable(parse, cfg, a) :: a == "x";
  }

  method ValidateUsers(cfg: Config, ghost parse: Parser) returns (refusal: Option<Refusal>)
    ensures refusal.None? <==> UsersFine(cfg)
    ensures refusal.Some? ==> Justified(parse, cfg, refusal.value)
  {
    var rest := cfg.users.Keys;
    while rest != {}
      invariant rest <= cfg.users.Keys
      invariant forall u | u in cfg.users && u !in rest :: !Unsupported(cfg.users[u]) && cfg.users[u].token != ""
      decreases |rest|
    {
      var u :| u in rest;
      if Unsupported(cfg.users[u]) {
        return Some(UnsupportedAuth(u));
      }
      if cfg.users[u].token == "" {
        return Some(NoToken(u));
      }
      rest := rest - {u};
    }
    return None;
  }

  method ValidateClusters(parse: Parser, cfg: Config) returns (refusal: Option<Refusal>, servers: seq<Url>)
    ensures refusal.None? <==> ClustersFine(parse, cfg)
    ensures refusal.Some? ==> Justified(parse, cfg, refusal.value)
    ensures refusal.None? ==> ServersOf(parse, cfg, cfg.clusters.Keys, servers)
  {
    servers := [];
    var rest, walked := cfg.clusters.Keys, {};
    while rest != {}
      invariant rest + walked == cfg.clusters.Keys
      invariant forall c | c in walked ::
                  cfg.clusters[c].server != "" && !cfg.clusters[c].caFile && ServerOf(parse, cfg.clusters[c].server).Some?
      invariant ServersOf(parse, cfg, walked, servers)
      decreases |rest|
    {
      var c :| c in rest;
      if cfg.clusters[c].server == "" {
        return Some(NoServer(c)), [];
      }
      if cfg.clusters[c].caFile {
        return Some(CertificateFile(c)), [];
      }
      var server := ServerOf(parse, cfg.clusters[c].server);
      if server.None? {
        return Some(BadServer(c)), [];
      }
      ServersGrow(parse, cfg, walked, servers, c);
      servers := servers + [server.value];
      rest, walked := rest - {c}, walked + {c};
    }
    assert walked == cfg.clusters.Keys;
    return None, servers;
  }

  lemma ServersGrow(parse: Parser, cfg: Config, clusters: set<string>, servers: seq<Url>, c: string)
    requires ServersOf(parse, cfg, clusters, servers) && c in cfg.clusters && ServerOf(parse, cfg.clusters[c].server).Some?
    ensures ServersOf(parse, cfg, clusters + {c}, servers + [ServerOf(parse, cfg.clusters[c].server).value])
  {
    var u := ServerOf(parse, cfg.clusters[c].server).value;
    forall v ensures v in servers + [u] <==> exists d :: d in clusters + {c} && d in cfg.clusters && ServerOf(parse, cfg.clusters[d].server) == Some(v) {
      if d :| d in clusters + {c} && d in cfg.clusters && ServerOf(parse, cfg.clusters[d].server) == Some(v) {
        assert d == c || d in clusters;
      }
      if v == u {
        assert c in clusters + {c};
      } else if v in servers {
        var d :| d in clusters && d in cfg.clusters && ServerOf(parse, cfg.clusters[d].server) == Some(v);
        assert d in clusters + {c};
      }
    }
  }

  /** The table holds, for each key, the token of a context already walked. */
  ghost predicate Table(parse: Parser, cfg: Config, key: Url -> string, walked: set<string>, tokens: map<string, string>) {
    && (forall a | a in walked && Resolvable(parse, cfg, a) :: key(ContextUrl(parse, cfg, a)) in tokens)
    && (forall k | k in tokens :: exists a :: a in walked && Holds(parse, cfg, key, a, k, tokens[k]))
  }

  ghost predicate Holds(parse: Parser, cfg: Config, key: Url -> string, a: string, k: string, token: string) {
    Resolvable(parse, cfg, a) && key(ContextUrl(parse, cfg, a)) == k && TokenOf(parse, cfg, a) == token
  }

  lemma TableGrows(parse: Parser, cfg: Config, key: Url -> string, walked: set<string>, tokens: map<string, string>, a: string)
    requires Table(parse, cfg, key, walked, tokens)
    ensures Table(parse, cfg, key, walked + {a},
                  if Resolvable(parse, cfg, a) then tokens[key(ContextUrl(parse, cfg, a)) := TokenOf(parse, cfg, a)] else tokens)
  {
    if Resolvable(parse, cfg, a) {
      var k := key(ContextUrl(parse, cfg, a));
      var after := tokens[k := TokenOf(parse, cfg, a)];
      assert Holds(parse, cfg, key, a, k, after[k]);
      forall l | l in after ensures exists b :: b in walked + {a} && Holds(parse, cfg, key, b, l, after[l]) {
        if l != k {
          var b :| b in walked && Holds(parse, cfg, key, b, l, tokens[l]);
          assert b in walked + {a};
        }
      }
    }
  }

  /** Every context walked so far finds its own token in the table. */
  ghost predicate Agrees(parse: Parser, cfg: Config, key: Url -> string, walked: set<string>, tokens: map<string, string>) {
    forall a | a in walked && Resolvable(parse, cfg, a) ::
      key(ContextUrl(parse, cfg, a)) in tokens && tokens[key(ContextUrl(parse, cfg, a))] == TokenOf(parse, cfg, a)
  }

  lemma AgreesGrows(parse: Parser, cfg: Config, key: Url -> string, walked: set<string>, tokens: map<string, string>, a: string)
    requires Agrees(parse, cfg, key, walked, tokens) && Resolvable(parse, cfg, a)
    requires key(ContextUrl(parse, cfg, a)) in tokens ==> tokens[key(ContextUrl(parse, cfg, a))] == TokenOf(parse, cfg, a)
    ensures Agrees(parse, cfg, key, walked + {a}, tokens[key(ContextUrl(parse, cfg, a)) := TokenOf(parse, cfg, a)])
  {
  }

  lemma AgreesMeansOneToken(parse: Parser, cfg: Config, key: Url -> string, tokens: map<string, string>)
    requires Agrees(parse, cfg, key, cfg.contexts.Keys, tokens)
    ensures OneTokenPer(parse, cfg, key)
  {
  }

  lemma ConflictIsReal(parse: Parser, cfg: Config, walked: set<string>, tokens: map<string, string>, a: string, key: Url -> string)
    requires Table(parse, cfg, key, walked, tokens) && Resolvable(parse, cfg, a) && key == KeyOf
    requires key(ContextUrl(parse, cfg, a)) in tokens && tokens[key(ContextUrl(parse, cfg, a))] != TokenOf(parse, cfg, a)
    ensures Justified(parse, cfg, ConflictingTokens(a)) && !OneTokenPer(parse, cfg, key)
  {
    var k := key(ContextUrl(parse, cfg, a));
    var b :| b in walked && Holds(parse, cfg, key, b, k, tokens[k]);
  }

  method ValidateTokens(parse: Parser, cfg: Config) returns (refusal: Option<Refusal>)
    ensures refusal.None? <==> OneTokenPer(parse, cfg, KeyOf)
    ensures refusal.Some? ==> Justified(parse, cfg, refusal.value)
  {
    var tokens: map<string, string> := map[];
    var rest, walked := cfg.contexts.Keys, {};
    while rest != {}
      invariant rest + walked == cfg.contexts.Keys
      invariant Table(parse, cfg, KeyOf, walked, tokens) && Agrees(parse, cfg, KeyOf, walked, tokens)
      decreases |rest|
    {
      var a :| a in rest;
      TableGrows(parse, cfg, KeyOf, walked, tokens, a);
      if Resolvable(parse, cfg, a) {
        var k, token := KeyOf(ContextUrl(parse, cfg, a)), TokenOf(parse, cfg, a);
        if k in tokens && tokens[k] != token {
          ConflictIsReal(parse, cfg, walked, tokens, a, KeyOf);
          return Some(ConflictingTokens(a));
        }
        AgreesGrows(parse, cfg, KeyOf, walked, tokens, a);
        tokens := tokens[k := token];
      }
      rest, walked := rest - {a}, walked + {a};
    }
    assert walked == cfg.contexts.Keys;
    AgreesMeansOneToken(parse, cfg, KeyOf, tokens);
    return None;
  }

  /******* The injector *******/

  /** The context names a cluster and a user, and the user has no token. */
  predicate Tokenless(cfg: Config, name: string) {
    && name in cfg.contexts
    && cfg.contexts[name].cluster in cfg.clusters && cfg.contexts[name].user in cfg.users
    && cfg.users[cfg.contexts[name].user].token == ""
  }

  /** Only a context whose cluster and user are both there can make the injector fail. */
  lemma TokenlessMeans(cfg: Config, name: string)
    ensures name !in cfg.contexts ==> !Tokenless(cfg, name)
    ensures name in cfg.contexts ==>
            (Tokenless(cfg, name)
             <==> exists c, u :: cfg.contexts[name] == Context(c, u) && c in cfg.clusters && u in cfg.users && cfg.users[u].token == "")
  {
    if Tokenless(cfg, name) {
      var ctx := cfg.contexts[name];
      assert ctx == Context(ctx.cluster, ctx.user);
    }
  }

  /** `NewKubernetesInjector`: the token table, or an error where a context's user has no token. */
  method NewKubernetesInjector(parse: Parser, cfg: Config) returns (tokens: Option<map<string, string>>)
    ensures tokens.None? <==> exists a :: a in cfg.contexts && Tokenless(cfg, a)
    ensures tokens.Some? ==> Table(parse, cfg, FoldedKeyOf, cfg.contexts.Keys, tokens.value)
  {
    var table: map<string, string> := map[];
    var rest, walked := cfg.contexts.Keys, {};
    while rest != {}
      invariant rest + walked == cfg.contexts.Keys
      invariant Table(parse, cfg, FoldedKeyOf, walked, table)
      invariant forall a | a in walked :: !Tokenless(cfg, a)
      decreases |rest|
    {
      var a :| a in rest;
      TableGrows(parse, cfg, FoldedKeyOf, walked, table, a);
      var refused;
      refused, table := AddContext(parse, cfg, a, table);
      if refused {
        return None;
      }
      rest, walked := rest - {a}, walked + {a};
    }
    assert walked == cfg.contexts.Keys;
    return Some(table);
  }

  /** One context of the walk: its user's token under its server's key, if both are there. */
  method AddContext(parse: Parser, cfg: Config, a: string, tokens: map<string, string>) returns (refused: bool, table: map<string, string>)
    requires a in cfg.contexts
    ensures refused == Tokenless(cfg, a)
    ensures !refused ==>
            table == if Resolvable(parse, cfg, a) then tokens[FoldedKeyOf(ContextUrl(parse, cfg, a)) := TokenOf(parse, cfg, a)] else tokens
  {
    var ctx := cfg.contexts[a];
    table := tokens;
    if ctx.cluster in cfg.clusters && ctx.user in cfg.users {
      if cfg.users[ctx.user].token == "" {
        return true, table;
      }
      var server := ServerOf(parse, cfg.clusters[ctx.cluster].server);
      if server.Some? {
        table := table[FoldedKeyOf(server.value) := cfg.users[ctx.user].token];
      }
    }
    refused := false;
  }

  /** Every resolvable context finds its own user's token. */
  ghost predicate OwnTokens(parse: Parser, cfg: Config, tokens: map<string, string>) {
    Agrees(parse, cfg, FoldedKeyOf, cfg.contexts.Keys, tokens)
  }

  /** No two servers that differ only in the case of their host name carry different tokens. */
  ghost predicate CaseIsHarmless(parse: Parser, cfg: Config) {
    OneTokenPer(parse, cfg, FoldedKeyOf)
  }

  /** Whatever the order of the walk, every context gets its own token exactly when case is harmless. */
  lemma OwnTokensIffCaseIsHarmless(parse: Parser, cfg: Config, tokens: map<string, string>)
    requires Table(parse, cfg, FoldedKeyOf, cfg.contexts.Keys, tokens)
    ensures OwnTokens(parse, cfg, tokens) <==> CaseIsHarmless(parse, cfg)
  {
    if CaseIsHarmless(parse, cfg) {
      TableAgrees(parse, cfg, FoldedKeyOf, tokens);
    } else if OwnTokens(parse, cfg, tokens) {
      AgreesMeansOneToken(parse, cfg, FoldedKeyOf, tokens);
    }
  }

  lemma TableAgrees(parse: Parser, cfg: Config, key: Url -> string, tokens: map<string, string>)
    requires Table(parse, cfg, key, cfg.contexts.Keys, tokens) && OneTokenPer(parse, cfg, key)
    ensures Agrees(parse, cfg, key, cfg.contexts.Keys, tokens)
  {
    forall a | a in cfg.contexts.Keys && Resolvable(parse, cfg, a)
      ensures key(ContextUrl(parse, cfg, a)) in tokens
      ensures tokens[key(ContextUrl(parse, cfg, a))] == TokenOf(parse, cfg, a)
    {
      var k := key(ContextUrl(parse, cfg, a));
      assert k in tokens;
      var b :| b in cfg.contexts.Keys && Holds(parse, cfg, key, b, k, tokens[k]);
    }
  }

  ghost predicate LowerCaseHosts(parse: Parser, cfg: Config) {
    forall a | Resolvable(parse, cfg, a) :: Lower(ContextUrl(parse, cfg, a).hostname) == ContextUrl(parse, cfg, a).hostname
  }

  /** An accepted kubeconfig with lower-case hosts gives every context its own user's token. */
  lemma AcceptedLowerCaseConfigIsServed(parse: Parser, cfg: Config, tokens: map<string, string>)
    requires Acceptable(parse, cfg) && LowerCaseHosts(parse, cfg)
    requires Table(parse, cfg, FoldedKeyOf, cfg.contexts.Keys, tokens)
    ensures OwnTokens(parse, cfg, tokens)
  {
    assert forall a | Resolvable(parse, cfg, a) :: FoldedKeyOf(ContextUrl(parse, cfg, a)) == KeyOf(ContextUrl(parse, cfg, a));
    OwnTokensIffCaseIsHarmless(parse, cfg, tokens);
  }

  const ALICE := User(false, false, false, false, false, "alice")
  const BOB := User(false, false, false, false, false, "bob")
  const MIXED := Config(map["a" := ALICE, "b" := BOB],
                        map["up" := Cluster("https://K", false), "low" := Cluster("https://k", false)],
                        map["x" := Context("up", "a"), "y" := Context("low", "b")])

  /** The two URLs differ in the case of their host name only. */
  ghost predicate ReadsBoth(parse: Parser) {
    parse("https://K") == Some(Url("K", "")) && parse("https://k") == Some(Url("k", ""))
  }

  lemma MixedContexts(parse: Parser)
    requires ReadsBoth(parse)
    ensures Resolvable(parse, MIXED, "x") && Resolvable(parse, MIXED, "y")
    ensures ContextUrl(parse, MIXED, "x") == Url("K", "443") && ContextUrl(parse, MIXED, "y") == Url("k", "443")
    ensures TokenOf(parse, MIXED, "x") == "alice" && TokenOf(parse, MIXED, "y") == "bob"
    ensures forall a | Resolvable(parse, MIXED, a) :: a == "x" || a == "y"
  {
  }

  lemma TwoServers(parse: Parser, cfg: Config, key: Url -> string)
    requires Resolvable(parse, cfg, "x") && Resolvable(parse, cfg, "y")
    requires forall a | Resolvable(parse, cfg, a) :: a == "x" || a == "y"
    requires TokenOf(parse, cfg, "x") != TokenOf(parse, cfg, "y")
    ensures OneTokenPer(parse, cfg, key) <==> key(ContextUrl(parse, cfg, "x")) != key(ContextUrl(parse, cfg, "y"))
  {
  }

  lemma MixedIsFine(parse: Parser)
    requires ReadsBoth(parse)
    ensures UsersFine(MIXED) && ClustersFine(parse, MIXED)
  {
  }

  /** Two spellings of one host pass validation with two tokens; the injector then serves one of them wrongly. */
  lemma MixedCaseIsAcceptedButMisserved(parse: Parser, tokens: map<string, string>)
    requires ReadsBoth(parse) && Table(parse, MIXED, FoldedKeyOf, MIXED.contexts.Keys, tokens)
    ensures Acceptable(parse, MIXED) && !OwnTokens(parse, MIXED, tokens)
  {
    MixedContexts(parse);
    MixedIsFine(parse);
    SpellingsDiffer();
    assert "alice"[0] != "bob"[0];
    TwoServers(parse, MIXED, KeyOf);
    TwoServers(parse, MIXED, FoldedKeyOf);
    OwnTokensIffCaseIsHarmless(parse, MIXED, tokens);
  }

  lemma SpellingsDiffer()
    ensures KeyOf(Url("K", "443")) != KeyOf(Url("k", "443"))
    ensures FoldedKeyOf(Url("K", "443")) == FoldedKeyOf(Url("k", "443"))
  {
    assert KeyOf(Url("K", "443"))[0] != KeyOf(Url("k", "443"))[0];
    assert Lower("K") == "k" == Lower("k");
  }

  /******* Requests *******/

  /** `normalizeRequestHost`. */
  function RequestKey(host: string): string {
    match SplitHostPort(host)
    case Some((h, port)) => Lower(h) + ":" + port
    case None => Lower(host) + ":443"
  }

  /** `Inject`: the Authorization header, or an error. */
  function Inject(tokens: map<string, string>, host: string): Result<string, string> {
    var key := RequestKey(host);
    if key in tokens then Ok("Bearer " + tokens[key]) else Err("no token for host " + key)
  }

  /** A request to a context's server, in any spelling of the host and with the port given, carries that context's token. */
  lemma RequestGetsContextToken(parse: Parser, cfg: Config, tokens: map<string, string>, a: string, host: string)
    requires OwnTokens(parse, cfg, tokens) && Resolvable(parse, cfg, a)
    requires Lower(host) == Lower(ContextUrl(parse, cfg, a).hostname)
    requires Bracketless(host) && Bracketless(ContextUrl(parse, cfg, a).port) && ':' !in ContextUrl(parse, cfg, a).port
    ensures Inject(tokens, JoinHostPort(host, ContextUrl(parse, cfg, a).port)) == Ok("Bearer " + TokenOf(parse, cfg, a))
  {
    SplitJoined(host, ContextUrl(parse, cfg, a).port);
  }

  /** A request to a server without a token fails, and the error names the server. */
  lemma UnknownServerIsRefused(tokens: map<string, string>, host: string, port: string)
    requires Bracketless(host) && Bracketless(port) && ':' !in port && Lower(host) + ":" + port !in tokens
    ensures Inject(tokens, JoinHostPort(host, port)) == Err("no token for host " + (Lower(host) + ":" + port))
  {
    SplitJoined(host, port);
  }

  /** How a URL spells a host without a port. */
  function PortlessHost(host: string): string {
    if ':' in host then "[" + host + "]" else host
  }

  /** Without a port, the request key is the server's default-port key exactly for hosts that are not IPv6 literals. */
  lemma PortlessRequestIff(host: string)
    requires Bracketless(host)
    ensures RequestKey(PortlessHost(host)) == FoldedKeyOf(Url(host, "443")) <==> ':' !in host
  {
    var s := PortlessHost(host);
    if ':' in host {
      var port := AfterLast(s, ':');
      assert s[|s| - 1] == ']' && IndexOf(s, ']') == |s| - 1 by {
        assert forall j | 0 <= j < |s| - 1 :: s[j] != ']';
      }
      assert SplitHostPort(s).None?;
      assert RequestKey(s)[0] == '[';
      assert FoldedKeyOf(Url(host, "443"))[0] == LowerChar(host[0]);
      assert host[0] != '[' by {
        assert host[0] in host;
      }
    } else {
      assert AfterLast(s, ':') == 0;
    }
  }
}
