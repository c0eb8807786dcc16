/**
 The operator's route compiler: credentials, MCP servers, web search and builtin domains
 become one ordered route list.  Each emitted route is paired with where it came from; the
 written config holds the routes alone.

 Go walks the MCP server map in an unspecified order, so the servers are a sequence here
 and the results hold for every order.  A server carries the host name of its URL, which is
 empty when the URL does not parse or has none.
 */
module RouteCompiler {
  import opened Basics
  import opened Strings
  import opened Routes
  import StableSort

  datatype Kind = APIKey | Bearer | BasicAuth | GCP | NoAuth | PathToken | OAuth2 | Kubernetes | Unknown

  datatype KubeCluster = KubeCluster(hostname: string, port: string, caCert: string)

  /**
   A resolved credential.  Settings of a type the credential does not have are empty, and
   `upstream` is the provider's resolved upstream URL.
   */
  datatype Credential = Credential(
    name: string,
    kind: Kind,
    domain: string,
    provider: string,
    upstream: string,
    channel: string,
    defaultHeaders: map<string, string>,
    allowedPaths: seq<string>,
    header: string,
    valuePrefix: string,
    basicUsername: string,
    gcpProject: string,
    gcpLocation: string,
    pathTokenPrefix: string,
    clientID: string,
    tokenURL: string,
    scopes: seq<string>,
    clusters: Option<seq<KubeCluster>>)

  datatype McpServer = McpServer(name: string, url: string, host: string, credentialRef: string)

  datatype Builtin = Builtin(domain: string, allowedPaths: seq<string>)

  datatype Origin = FromBuiltin | FromWebSearch | FromMcpCredential | FromMcp | FromCredential | FromCluster | FromCompanion

  datatype Emitted = Emitted(route: Route, origin: Origin)

  datatype MissingRef = MissingRef(server: string, credential: string)

  /******* Single routes *******/

  function UpperChar(c: char): char {
    if 'a' <= c <= 'z' then (c as int - 32) as char else c
  }

  function EnvVarName(credential: string): string {
    "CRED_" + seq(|credential|, i requires 0 <= i < |credential| =>
                    if credential[i] == '-' then '_' else UpperChar(credential[i]))
  }

  function BuildCredentialRoute(cred: Credential): (r: Route)
    ensures r.domain == cred.domain
  {
    var base := PlainRoute(cred.domain, "").(defaultHeaders := cred.defaultHeaders, allowedPaths := cred.allowedPaths);
    match cred.kind
    case APIKey =>
      base.(injector := "api_key", envVar := EnvVarName(cred.name), header := cred.header, valuePrefix := cred.valuePrefix)
    case Bearer => base.(injector := "bearer", envVar := EnvVarName(cred.name))
    case BasicAuth => base.(injector := "basic", envVar := EnvVarName(cred.name), basicUsername := cred.basicUsername)
    case GCP =>
      base.(injector := "gcp", saFilePath := "/etc/proxy/credentials/" + cred.name + "/sa-key.json",
            gcpProject := cred.gcpProject, gcpLocation := cred.gcpLocation)
    case NoAuth => base.(injector := "none")
    case PathToken => base.(injector := "path_token", envVar := EnvVarName(cred.name), pathPrefix := cred.pathTokenPrefix)
    case OAuth2 =>
      base.(injector := "oauth2", envVar := EnvVarName(cred.name), clientID := cred.clientID,
            tokenURL := cred.tokenURL, scopes := cred.scopes)
    case Kubernetes => base
    case Unknown => base
  }

  predicate UsesVertexSDK(cred: Credential) {
    cred.kind == GCP && cred.provider != "" && cred.provider != "google"
  }

  /** The route of a credential with its own domain, with gateway routing for providers. */
  function OwnRoute(cred: Credential): (r: Route)
    ensures r.domain == cred.domain
  {
    var route := BuildCredentialRoute(cred);
    if cred.provider != "" && cred.kind != PathToken && !UsesVertexSDK(cred)
    then route.(pathPrefix := "/" + Lower(cred.name), upstream := cred.upstream)
    else route
  }

  function ClusterRoute(cred: Credential, cluster: KubeCluster): Route {
    PlainRoute(cluster.hostname + ":" + cluster.port, "kubernetes").(
      kubeconfigPath := "/etc/proxy/credentials/" + cred.name + "/kubeconfig",
      defaultHeaders := cred.defaultHeaders,
      caCert := cluster.caCert)
  }

  /** Domains a messaging channel needs beside its own. */
  function Companions(channel: string): seq<string> {
    if channel == "discord" then ["gateway.discord.gg", "cdn.discordapp.com"]
    else if channel == "slack" then [".slack.com"]
    else if channel == "whatsapp" then
      [".whatsapp.com", ".whatsapp.net", ".facebook.com", ".facebook.net", ".fbcdn.net"]
    else []
  }

  function WebSearchRoute(provider: Option<string>): Option<Route> {
    if provider == Some("brave") then
      Some(PlainRoute("api.search.brave.com", "api_key").(envVar := EnvVarName("websearch"), header := "X-Subscription-Token"))
    else if provider == Some("tavily") then
      Some(PlainRoute("api.tavily.com", "bearer").(envVar := EnvVarName("websearch")))
    else if provider == Some("duckduckgo") then
      Some(PlainRoute("html.duckduckgo.com", "none"))
    else None
  }

  /******* Coverage *******/

  predicate DomainCovered(domain: string, covered: set<string>) {
    domain in covered || exists c :: c in covered && HasPrefix(c, ".") && HasSuffix(domain, c)
  }

  /** The routes emitted so far and the domains taken. */
  datatype Acc = Acc(out: seq<Emitted>, covered: set<string>)

  function CredentialDomains(creds: seq<Credential>): set<string> {
    set i | 0 <= i < |creds| :: Lower(creds[i].domain)
  }

  function AddBuiltin(acc: Acc, b: Builtin): Acc {
    if b.domain in acc.covered then acc
    else Acc(acc.out + [Emitted(PlainRoute(b.domain, "none").(allowedPaths := b.allowedPaths), FromBuiltin)],
             acc.covered + {b.domain})
  }

  function AddBuiltins(acc: Acc, builtins: seq<Builtin>): Acc {
    if builtins == [] then acc
    else AddBuiltin(AddBuiltins(acc, builtins[..|builtins| - 1]), builtins[|builtins| - 1])
  }

  /** Emits a route unless its lower-case domain is covered already. */
  function AddUnlessCovered(acc: Acc, route: Route, origin: Origin): Acc {
    var domain := Lower(route.domain);
    if DomainCovered(domain, acc.covered) then acc
    else Acc(acc.out + [Emitted(route, origin)], acc.covered + {domain})
  }

  function AddWebSearch(acc: Acc, provider: Option<string>): Acc {
    match WebSearchRoute(provider)
    case None => acc
    case Some(route) => AddUnlessCovered(acc, route, FromWebSearch)
  }

  /******* MCP servers *******/

  /** The credential with this name; the last one when there are several. */
  function CredentialNamed(creds: seq<Credential>, name: string): Option<Credential> {
    if creds == [] then None
    else if creds[|creds| - 1].name == name then Some(creds[|creds| - 1])
    else CredentialNamed(creds[..|creds| - 1], name)
  }

  predicate WantsCredential(s: McpServer) {
    s.url != "" && s.credentialRef != ""
  }

  predicate WantsPassthrough(s: McpServer) {
    s.url != "" && s.credentialRef == ""
  }

  /** The route of an HTTP server, under the lower-case host of its URL. */
  function McpRoute(creds: seq<Credential>, s: McpServer): (r: Route)
    ensures r.domain == Lower(s.host)
  {
    var base :=
      match CredentialNamed(creds, s.credentialRef)
      case Some(cred) => BuildCredentialRoute(cred)
      case None => PlainRoute("", "none");
    if s.credentialRef == "" then PlainRoute(Lower(s.host), "none")
    else base.(domain := Lower(s.host), allowedPaths := [], defaultHeaders := map[])
  }

  function McpOrigin(withCredential: bool): Origin {
    if withCredential then FromMcpCredential else FromMcp
  }

  predicate Wanted(s: McpServer, withCredential: bool) {
    s.host != "" && (if withCredential then WantsCredential(s) else WantsPassthrough(s))
  }

  function AddServer(creds: seq<Credential>, withCredential: bool, acc: Acc, s: McpServer): Acc {
    if Wanted(s, withCredential) then AddUnlessCovered(acc, McpRoute(creds, s), McpOrigin(withCredential)) else acc
  }

  function AddServers(creds: seq<Credential>, withCredential: bool, acc: Acc, servers: seq<McpServer>): Acc {
    if servers == [] then acc
    else AddServer(creds, withCredential, AddServers(creds, withCredential, acc, servers[..|servers| - 1]), servers[|servers| - 1])
  }

  predicate RefMissing(creds: seq<Credential>, s: McpServer) {
    WantsCredential(s) && CredentialNamed(creds, s.credentialRef).None?
  }

  /** The first server that names a credential which does not exist. */
  function FirstMissing(creds: seq<Credential>, servers: seq<McpServer>): (r: Option<MissingRef>)
    ensures r.None? <==> forall i :: 0 <= i < |servers| ==> !RefMissing(creds, servers[i])
  {
    if servers == [] then None
    else if RefMissing(creds, servers[0]) then Some(MissingRef(servers[0].name, servers[0].credentialRef))
    else FirstMissing(creds, servers[1..])
  }

  lemma {:induction false} FirstMissingAt(creds: seq<Credential>, servers: seq<McpServer>, i: nat)
    requires i < |servers| && RefMissing(creds, servers[i])
    requires forall j :: 0 <= j < i ==> !RefMissing(creds, servers[j])
    ensures FirstMissing(creds, servers) == Some(MissingRef(servers[i].name, servers[i].credentialRef))
  {
    if i > 0 {
      FirstMissingAt(creds, servers[1..], i - 1);
    }
  }

  lemma ServersSnoc(creds: seq<Credential>, withCredential: bool, acc: Acc, servers: seq<McpServer>, i: nat)
    requires i < |servers|
    ensures AddServers(creds, withCredential, acc, servers[..i + 1])
            == AddServer(creds, withCredential, AddServers(creds, withCredential, acc, servers[..i]), servers[i])
  {
    assert servers[..i + 1][..i] == servers[..i];
  }

  method McpCredentialRoutes(servers: seq<McpServer>, creds: seq<Credential>, acc0: Acc)
    returns (r: Result<Acc, MissingRef>)
    ensures r == match FirstMissing(creds, servers)
                 case Some(m) => Err(m)
                 case None => Ok(AddServers(creds, true, acc0, servers))
  {
    var acc := acc0;
    for i := 0 to |servers|
      invariant forall j :: 0 <= j < i ==> !RefMissing(creds, servers[j])
      invariant acc == AddServers(creds, true, acc0, servers[..i])
    {
      var s := servers[i];
      ServersSnoc(creds, true, acc0, servers, i);
      if s.url == "" || s.credentialRef == "" {
        continue;
      }
      var cred := CredentialNamed(creds, s.credentialRef);
      if cred.None? {
        FirstMissingAt(creds, servers, i);
        return Err(MissingRef(s.name, s.credentialRef));
      }
      if s.host == "" {
        continue;
      }
      var domain := Lower(s.host);
      LowerIdempotent(s.host);
      if DomainCovered(domain, acc.covered) {
        continue;
      }
      var route := BuildCredentialRoute(cred.value).(domain := domain, allowedPaths := [], defaultHeaders := map[]);
      acc := Acc(acc.out + [Emitted(route, FromMcpCredential)], acc.covered + {domain});
    }
    assert servers[..|servers|] == servers;
    return Ok(acc);
  }

  method McpPassthroughRoutes(servers: seq<McpServer>, creds: seq<Credential>, acc0: Acc) returns (acc: Acc)
    ensures acc == AddServers(creds, false, acc0, servers)
  {
    acc := acc0;
    for i := 0 to |servers|
      invariant acc == AddServers(creds, false, acc0, servers[..i])
    {
      var s := servers[i];
      ServersSnoc(creds, false, acc0, servers, i);
      if s.url == "" || s.credentialRef != "" || s.host == "" {
        continue;
      }
      var domain := Lower(s.host);
      LowerIdempotent(s.host);
      if DomainCovered(domain, acc.covered) {
        continue;
      }
      acc := Acc(acc.out + [Emitted(PlainRoute(domain, "none"), FromMcp)], acc.covered + {domain});
    }
    assert servers[..|servers|] == servers;
  }

  /******* Credential routes *******/

  function ClusterRoutes(cred: Credential, clusters: seq<KubeCluster>): seq<Emitted> {
    seq(|clusters|, i requires 0 <= i < |clusters| => Emitted(ClusterRoute(cred, clusters[i]), FromCluster))
  }

  function CompanionRoutes(cred: Credential): seq<Emitted> {
    var domains := Companions(cred.channel);
    seq(|domains|, i requires 0 <= i < |domains| => Emitted(PlainRoute(domains[i], "none"), FromCompanion))
  }

  /** All routes of one credential: its clusters, or its own domain and its companions. */
  function RoutesOf(cred: Credential): seq<Emitted> {
    if cred.kind == Kubernetes then
      match cred.clusters
      case None => []
      case Some(cs) => ClusterRoutes(cred, cs)
    else
      (if cred.domain != "" then [Emitted(OwnRoute(cred), FromCredential)] else []) + CompanionRoutes(cred)
  }

  predicate IsSuffixRoute(e: Emitted) {
    e.origin != FromCluster && HasPrefix(e.route.domain, ".")
  }

  /** The routes that are suffix routes (or are not), in order. */
  function Part(es: seq<Emitted>, suffix: bool): (r: seq<Emitted>)
    ensures forall e :: e in r <==> e in es && IsSuffixRoute(e) == suffix
  {
    if es == [] then []
    else if IsSuffixRoute(es[0]) == suffix then [es[0]] + Part(es[1..], suffix)
    else Part(es[1..], suffix)
  }

  function CredentialRoutes(creds: seq<Credential>, suffix: bool): seq<Emitted> {
    if creds == [] then []
    else CredentialRoutes(creds[..|creds| - 1], suffix) + Part(RoutesOf(creds[|creds| - 1]), suffix)
  }

  method Distribute(es: seq<Emitted>, exact0: seq<Emitted>, suffix0: seq<Emitted>)
    returns (exact: seq<Emitted>, suffix: seq<Emitted>)
    ensures exact == exact0 + Part(es, false)
    ensures suffix == suffix0 + Part(es, true)
  {
    exact, suffix := exact0, suffix0;
    for j := 0 to |es|
      invariant exact == exact0 + Part(es[..j], false)
      invariant suffix == suffix0 + Part(es[..j], true)
    {
      var e := es[j];
      assert es[..j + 1] == es[..j] + [e];
      PartSnoc(es[..j], e, false);
      PartSnoc(es[..j], e, true);
      if IsSuffixRoute(e) {
        suffix := suffix + [e];
      } else {
        exact := exact + [e];
      }
    }
    assert es[..|es|] == es;
  }

  method CollectCredentialRoutes(creds: seq<Credential>) returns (exact: seq<Emitted>, suffix: seq<Emitted>)
    ensures exact == CredentialRoutes(creds, false)
    ensures suffix == CredentialRoutes(creds, true)
  {
    exact, suffix := [], [];
    for i := 0 to |creds|
      invariant exact == CredentialRoutes(creds[..i], false)
      invariant suffix == CredentialRoutes(creds[..i], true)
    {
      assert creds[..i + 1][..i] == creds[..i];
      exact, suffix := Distribute(RoutesOf(creds[i]), exact, suffix);
    }
    assert creds[..|creds|] == creds;
  }

  lemma {:induction false} PartSnoc(es: seq<Emitted>, e: Emitted, suffix: bool)
    ensures Part(es + [e], suffix) == Part(es, suffix) + (if IsSuffixRoute(e) == suffix then [e] else [])
  {
    if es == [] {
      assert es + [e] == [e];
    } else {
      assert (es + [e])[1..] == es[1..] + [e];
      PartSnoc(es[1..], e, suffix);
    }
  }

  /******* The whole config *******/

  /** Alphabetical by domain, path-restricted before unrestricted, then by injector. */
  predicate RouteLess(a: Route, b: Route) {
    if a.domain != b.domain then Less(a.domain, b.domain)
    else if (|a.allowedPaths| > 0) != (|b.allowedPaths| > 0) then |a.allowedPaths| > 0
    else Less(a.injector, b.injector)
  }

  function EmittedLess(): (Emitted, Emitted) -> bool {
    (a: Emitted, b: Emitted) => RouteLess(a.route, b.route)
  }

  /** Everything taken before the MCP servers are looked at. */
  function Base(creds: seq<Credential>, webSearch: Option<string>, builtins: seq<Builtin>): Acc {
    AddWebSearch(AddBuiltins(Acc([], CredentialDomains(creds)), builtins), webSearch)
  }

  /** The unsorted exact-match routes. */
  function ExactRoutes(
    creds: seq<Credential>, servers: seq<McpServer>, webSearch: Option<string>, builtins: seq<Builtin>): seq<Emitted>
  {
    var base := Base(creds, webSearch, builtins);
    AddServers(creds, false, AddServers(creds, true, base, servers), servers).out + CredentialRoutes(creds, false)
  }

  /** The list as it is written when no credential is missing: the exact part, then the suffix part, each sorted. */
  function Compiled(
    creds: seq<Credential>, servers: seq<McpServer>, webSearch: Option<string>, builtins: seq<Builtin>): seq<Emitted>
  {
    StableSort.Sort(EmittedLess(), ExactRoutes(creds, servers, webSearch, builtins))
    + StableSort.Sort(EmittedLess(), CredentialRoutes(creds, true))
  }

  function Generate(
    creds: seq<Credential>, servers: seq<McpServer>, webSearch: Option<string>, builtins: seq<Builtin>)
    : Result<seq<Emitted>, MissingRef>
  {
    match FirstMissing(creds, servers)
    case Some(m) => Err(m)
    case None => Ok(Compiled(creds, servers, webSearch, builtins))
  }

  /** The written config: the routes without their provenance. */
  function RoutesIn(es: seq<Emitted>): (r: seq<Route>)
    ensures |r| == |es|
    ensures forall i :: 0 <= i < |es| ==> r[i] == es[i].route
  {
    seq(|es|, i requires 0 <= i < |es| => es[i].route)
  }

  method GenerateProxyConfig(
    creds: seq<Credential>, servers: seq<McpServer>, webSearch: Option<string>, builtins: seq<Builtin>)
    returns (r: Result<seq<Emitted>, MissingRef>)
    ensures r == Generate(creds, servers, webSearch, builtins)
  {
    var acc := Acc([], CredentialDomains(creds));
    ghost var start := acc;
    for i := 0 to |builtins|
      invariant acc == AddBuiltins(start, builtins[..i])
    {
      assert builtins[..i + 1][..i] == builtins[..i];
      if builtins[i].domain !in acc.covered {
        var route := PlainRoute(builtins[i].domain, "none").(allowedPaths := builtins[i].allowedPaths);
        acc := Acc(acc.out + [Emitted(route, FromBuiltin)], acc.covered + {builtins[i].domain});
      }
    }
    assert builtins[..|builtins|] == builtins;
    acc := AddWebSearch(acc, webSearch);
    var mcp := McpCredentialRoutes(servers, creds, acc);
    if mcp.Err? {
      return Err(mcp.error);
    }
    acc := McpPassthroughRoutes(servers, creds, mcp.value);
    var credExact, credSuffix := CollectCredentialRoutes(creds);
    var exact := StableSort.Sort(EmittedLess(), acc.out + credExact);
    var suffix := StableSort.Sort(EmittedLess(), credSuffix);
    return Ok(exact + suffix);
  }
}
