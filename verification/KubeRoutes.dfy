/**
 From an accepted kubeconfig to the token on the wire: the routes the compiler writes for the
 clusters, whether the proxy finds them for a request to a context's server, and the token the
 injector then adds.
 */
module KubeRoutes {
  import opened Basics
  import opened Strings
  import opened Routes
  import opened Selection
  import opened ProxyMatcher
  import opened RouteCompiler
  import RouteTheorems
  import RouteShadowing
  import Kubeconfig

  /** A host name as `url.Hostname` gives it, with a port. */
  predicate ProperServer(u: Kubeconfig.Url) {
    Bracketless(u.hostname) && Bracketless(u.port) && ':' !in u.port && u.port != ""
  }

  /** A host name that the written domain can stand for: no IPv6 literal and no leading dot. */
  predicate Plain(hostname: string) {
    ':' !in hostname && !HasPrefix(hostname, ".")
  }

  /** How a request names the server, in some spelling of its host name. */
  ghost predicate Addresses(host: string, u: Kubeconfig.Url) {
    exists spelling ::
      Bracketless(spelling) && Lower(spelling) == Lower(u.hostname) && host == JoinHostPort(spelling, u.port)
  }

  predicate ClusterAt(cluster: KubeCluster, u: Kubeconfig.Url) {
    cluster.hostname == u.hostname && cluster.port == u.port
  }

  /******* One cluster's route *******/

  /** The lower-case server as `ParseHost` sees it. */
  lemma AddressParsed(host: string, u: Kubeconfig.Url)
    requires ProperServer(u) && Addresses(host, u)
    ensures ParseHost(host) == (JoinHostPort(Lower(u.hostname), Lower(u.port)), Lower(u.hostname))
  {
    var spelling :| Bracketless(spelling) && Lower(spelling) == Lower(u.hostname) && host == JoinHostPort(spelling, u.port);
    var h, p := Lower(u.hostname), Lower(u.port);
    LowerHas(spelling, ':');
    LowerHas(u.port, ':');
    LowerHas(spelling, '[');
    LowerHas(spelling, ']');
    LowerHas(u.port, '[');
    LowerHas(u.port, ']');
    LowerJoined(spelling, u.port);
    SplitJoined(h, p);
  }

  /** A domain with a port, as the proxy classifies it. */
  lemma WrittenDomain(h: string, p: string)
    requires Bracketless(h) && Bracketless(p) && ':' !in p
    ensures IsPortForm(h + ":" + p) <==> ':' !in h
  {
    if ':' in h {
      AfterLastColon(h, p);
      assert h + ":" + p == h + (":" + p);
      assert (h + (":" + p))[0] == h[0] && h[0] in h;
      assert (h + (":" + p))[..|h|] == h;
    } else {
      SplitPlain(h, p);
    }
  }

  /** The written domain against the address, both in lower case. */
  lemma WrittenMatches(h: string, p: string)
    requires Bracketless(h) && Bracketless(p) && ':' !in p && p != ""
    ensures var domain := h + ":" + p;
            && (DomainMatches(domain, JoinHostPort(h, p), h) <==> Plain(h))
            && (Plain(h) ==> !HasPrefix(domain, ".") && IsPortForm(domain))
  {
    var domain := h + ":" + p;
    WrittenDomain(h, p);
    DotFirst(h);
    DotFirst(domain);
    assert |domain| > |h| && |domain[1..]| > |h|;
  }

  lemma PlainFolded(hostname: string)
    ensures Plain(Lower(hostname)) <==> Plain(hostname)
  {
    LowerHas(hostname, ':');
    DotFirst(hostname);
    DotFirst(Lower(hostname));
  }

  lemma FoldedParts(u: Kubeconfig.Url)
    requires ProperServer(u)
    ensures var (h, p) := (Lower(u.hostname), Lower(u.port));
            && Bracketless(h) && Bracketless(p) && ':' !in p && p != ""
            && Lower(u.hostname + ":" + u.port) == h + ":" + p
  {
    LowerConcat(u.hostname + ":", u.port);
    LowerConcat(u.hostname, ":");
    LowerHas(u.hostname, '[');
    LowerHas(u.hostname, ']');
    LowerHas(u.port, ':');
    LowerHas(u.port, '[');
    LowerHas(u.port, ']');
  }

  /**
   The route written for a cluster applies to a request to its server if and only if the host
   name is plain: the domain is written without brackets, so that the proxy does not read an
   IPv6 literal and its port back, and a leading dot makes it a suffix.
   */
  lemma ClusterRouteIff(cred: Credential, cluster: KubeCluster, u: Kubeconfig.Url, host: string)
    requires ClusterAt(cluster, u) && ProperServer(u) && Addresses(host, u)
    ensures RouteTier(ClusterRoute(cred, cluster), host) == if Plain(u.hostname) then Some(PortExact) else None
  {
    AddressParsed(host, u);
    FoldedParts(u);
    PlainFolded(u.hostname);
    WrittenMatches(Lower(u.hostname), Lower(u.port));
  }

  /******* In the compiled list *******/

  /** The credential carries this server among the clusters of its kubeconfig. */
  predicate CarriesServer(cred: Credential, u: Kubeconfig.Url) {
    cred.kind == Kubernetes && cred.clusters.Some? && exists i :: 0 <= i < |cred.clusters.value| && ClusterAt(cred.clusters.value[i], u)
  }

  /** The route belongs to the credential's kubeconfig. */
  predicate KubeRoute(route: Route, cred: Credential) {
    && route.injector == "kubernetes" && route.allowedPaths == []
    && route.kubeconfigPath == "/etc/proxy/credentials/" + cred.name + "/kubeconfig"
  }

  /** ... and is written for this server. */
  predicate ServesServer(route: Route, cred: Credential, u: Kubeconfig.Url) {
    KubeRoute(route, cred) && route.domain == u.hostname + ":" + u.port
  }

  lemma ClusterRouteWritten(
      creds: seq<Credential>, servers: seq<McpServer>, webSearch: Option<string>, builtins: seq<Builtin>, c: nat, i: nat)
    requires c < |creds| && creds[c].kind == Kubernetes && creds[c].clusters.Some? && i < |creds[c].clusters.value|
    ensures Emitted(ClusterRoute(creds[c], creds[c].clusters.value[i]), FromCluster) in Compiled(creds, servers, webSearch, builtins)
  {
    var e := Emitted(ClusterRoute(creds[c], creds[c].clusters.value[i]), FromCluster);
    assert RoutesOf(creds[c])[i] == e;
    RouteTheorems.BroughtBy(creds, c, false, e);
    RouteTheorems.GeneratedMembers(creds, servers, webSearch, builtins, e);
  }

  /** Among the routes the proxy chooses from is one of the credential's kubeconfig for the server. */
  ghost predicate Offered(routes: seq<Route>, host: string, cred: Credential, u: Kubeconfig.Url) {
    exists k :: 0 <= k < |Matching(routes, host)| && ServesServer(routes[Matching(routes, host)[k]], cred, u)
  }

  /** Whatever else the config holds: the proxy is offered the server's route if and only if the host name is plain. */
  lemma ServerReachableIff(
      creds: seq<Credential>, servers: seq<McpServer>, webSearch: Option<string>, builtins: seq<Builtin>,
      c: nat, u: Kubeconfig.Url, host: string)
    requires c < |creds| && CarriesServer(creds[c], u) && ProperServer(u) && Addresses(host, u)
    ensures Offered(RoutesIn(Compiled(creds, servers, webSearch, builtins)), host, creds[c], u) <==> Plain(u.hostname)
  {
    var out := Compiled(creds, servers, webSearch, builtins);
    var i :| 0 <= i < |creds[c].clusters.value| && ClusterAt(creds[c].clusters.value[i], u);
    ClusterRouteWritten(creds, servers, webSearch, builtins, c, i);
    var route := ClusterRoute(creds[c], creds[c].clusters.value[i]);
    var j :| 0 <= j < |out| && out[j] == Emitted(route, FromCluster);
    ClusterRouteIff(creds[c], creds[c].clusters.value[i], u, host);
    if Plain(u.hostname) {
      PortRouteOffered(RoutesIn(out), host, j);
    } else {
      NeverOffered(RoutesIn(out), host, creds[c], u, route);
    }
  }

  lemma PortRouteOffered(routes: seq<Route>, host: string, j: nat)
    requires j < |routes| && RouteTier(routes[j], host) == Some(PortExact)
    ensures j in Matching(routes, host)
  {
  }

  /** A route applies or not by its domain alone. */
  lemma NeverOffered(routes: seq<Route>, host: string, cred: Credential, u: Kubeconfig.Url, route: Route)
    requires RouteTier(route, host).None? && route.domain == u.hostname + ":" + u.port
    ensures !Offered(routes, host, cred, u)
  {
    if Offered(routes, host, cred, u) {
      var k :| 0 <= k < |Matching(routes, host)| && ServesServer(routes[Matching(routes, host)[k]], cred, u);
      TopTierIsHighest(routes, HostTest(host), k, Matching(routes, host)[k]);
    }
  }

  /******* Where the request goes *******/

  /** No builtin, and no credential but this one, brings a route on the server. */
  ghost predicate OnlyCredential(creds: seq<Credential>, builtins: seq<Builtin>, c: nat, u: Kubeconfig.Url) {
    var key := Lower(u.hostname + ":" + u.port);
    && (forall b :: b in builtins ==> Lower(b.domain) != key)
    && (forall j, e :: 0 <= j < |creds| && j != c && e in RoutesOf(creds[j]) ==> Lower(e.route.domain) != key)
  }

  lemma {:induction false} BuiltinRoutes(covered: set<string>, builtins: seq<Builtin>, e: Emitted)
    requires e in AddBuiltins(Acc([], covered), builtins).out
    ensures exists b :: b in builtins && e.route.domain == b.domain
  {
    var last := |builtins| - 1;
    if e in AddBuiltins(Acc([], covered), builtins[..last]).out {
      BuiltinRoutes(covered, builtins[..last], e);
      var b :| b in builtins[..last] && e.route.domain == b.domain;
      assert b in builtins;
    } else {
      assert builtins[last] in builtins;
    }
  }

  lemma PortTierMeans(route: Route, host: string)
    requires RouteTier(route, host) == Some(PortExact)
    ensures Lower(route.domain) == ParseHost(host).0
  {
  }

  /** The lower-case address of a plain server is its name and port. */
  lemma PlainAddress(u: Kubeconfig.Url, host: string)
    requires ProperServer(u) && Plain(u.hostname) && Addresses(host, u)
    ensures ParseHost(host).0 == Lower(u.hostname + ":" + u.port)
  {
    AddressParsed(host, u);
    FoldedParts(u);
    PlainFolded(u.hostname);
  }

  lemma RoutesAreKube(cred: Credential, e: Emitted)
    requires cred.kind == Kubernetes && e in RoutesOf(cred)
    ensures KubeRoute(e.route, cred)
  {
  }

  lemma NotFromBuiltin(creds: seq<Credential>, builtins: seq<Builtin>, c: nat, u: Kubeconfig.Url, e: Emitted)
    requires OnlyCredential(creds, builtins, c, u) && Lower(e.route.domain) == Lower(u.hostname + ":" + u.port)
    ensures e !in RouteShadowing.TakenFirst(creds, builtins).out
  {
    if e in RouteShadowing.TakenFirst(creds, builtins).out {
      BuiltinRoutes(CredentialDomains(creds), builtins, e);
    }
  }

  lemma FromOwnCredential(creds: seq<Credential>, builtins: seq<Builtin>, c: nat, u: Kubeconfig.Url, suffix: bool, e: Emitted)
    requires c < |creds| && creds[c].kind == Kubernetes && OnlyCredential(creds, builtins, c, u)
    requires Lower(e.route.domain) == Lower(u.hostname + ":" + u.port) && e in CredentialRoutes(creds, suffix)
    ensures KubeRoute(e.route, creds[c])
  {
    var j := RouteTheorems.BroughtBySome(creds, suffix, e);
    assert j == c;
    RoutesAreKube(creds[c], e);
  }

  lemma PortRouteIsOwn(
      creds: seq<Credential>, servers: seq<McpServer>, webSearch: Option<string>, builtins: seq<Builtin>,
      c: nat, u: Kubeconfig.Url, host: string, e: Emitted)
    requires c < |creds| && creds[c].kind == Kubernetes && RouteShadowing.BareServers(servers) && OnlyCredential(creds, builtins, c, u)
    requires ProperServer(u) && Plain(u.hostname) && Addresses(host, u)
    requires e in Compiled(creds, servers, webSearch, builtins) && RouteTier(e.route, host) == Some(PortExact)
    ensures KubeRoute(e.route, creds[c])
  {
    PortTierMeans(e.route, host);
    PlainAddress(u, host);
    RouteShadowing.PortRouteOrigin(creds, servers, webSearch, builtins, host, e);
    NotFromBuiltin(creds, builtins, c, u, e);
    FromOwnCredential(creds, builtins, c, u, e !in CredentialRoutes(creds, false), e);
  }

  /** The proxy sends the request to a route of the credential's kubeconfig, and the injector adds the token. */
  predicate Carries(routes: seq<Route>, cred: Credential, tokens: map<string, string>, host: string, path: string, token: string) {
    var r := Select(routes, host, path);
    && r.Some? && KubeRoute(routes[r.value], cred) && PathAllowed(routes[r.value], path)
    && Kubeconfig.Inject(tokens, host) == Ok("Bearer " + token)
  }

  /** Where case is harmless the injector has the token of every context ready. */
  lemma TokenReady(parse: Kubeconfig.Parser, cfg: Kubeconfig.Config, tokens: map<string, string>, a: string, host: string)
    requires Kubeconfig.Table(parse, cfg, Kubeconfig.FoldedKeyOf, cfg.contexts.Keys, tokens) && Kubeconfig.CaseIsHarmless(parse, cfg)
    requires Kubeconfig.Resolvable(parse, cfg, a)
    requires var u := Kubeconfig.ContextUrl(parse, cfg, a); ProperServer(u) && Addresses(host, u)
    ensures Kubeconfig.Inject(tokens, host) == Ok("Bearer " + Kubeconfig.TokenOf(parse, cfg, a))
  {
    var u := Kubeconfig.ContextUrl(parse, cfg, a);
    var spelling :| Bracketless(spelling) && Lower(spelling) == Lower(u.hostname) && host == JoinHostPort(spelling, u.port);
    Kubeconfig.OwnTokensIffCaseIsHarmless(parse, cfg, tokens);
    Kubeconfig.RequestGetsContextToken(parse, cfg, tokens, a, spelling);
  }

  /** The credential's clusters are those that validation hands on for the kubeconfig. */
  ghost predicate HoldsKubeconfig(cred: Credential, parse: Kubeconfig.Parser, cfg: Kubeconfig.Config) {
    && cred.kind == Kubernetes && cred.clusters.Some?
    && exists servers ::
         && Kubeconfig.ServersOf(parse, cfg, cfg.clusters.Keys, servers) && |servers| == |cred.clusters.value|
         && forall i :: 0 <= i < |servers| ==> ClusterAt(cred.clusters.value[i], servers[i])
  }

  lemma ContextIsCarried(cred: Credential, parse: Kubeconfig.Parser, cfg: Kubeconfig.Config, a: string)
    requires HoldsKubeconfig(cred, parse, cfg) && Kubeconfig.Resolvable(parse, cfg, a)
    ensures CarriesServer(cred, Kubeconfig.ContextUrl(parse, cfg, a))
  {
    var u := Kubeconfig.ContextUrl(parse, cfg, a);
    var servers :| && Kubeconfig.ServersOf(parse, cfg, cfg.clusters.Keys, servers) && |servers| == |cred.clusters.value|
                   && forall i :: 0 <= i < |servers| ==> ClusterAt(cred.clusters.value[i], servers[i]);
    assert cfg.contexts[a].cluster in cfg.clusters.Keys;
    assert u in servers;
    var i :| 0 <= i < |servers| && servers[i] == u;
    assert ClusterAt(cred.clusters.value[i], u);
  }

  /**
   End to end, through validation, compiler, proxy and injector: a request to the server of a
   context whose host name is plain carries that context's token on every path, provided case
   is harmless in the kubeconfig and nothing else names the server.
   */
  lemma ContextServed(
      creds: seq<Credential>, servers: seq<McpServer>, webSearch: Option<string>, builtins: seq<Builtin>, c: nat,
      parse: Kubeconfig.Parser, cfg: Kubeconfig.Config, tokens: map<string, string>, a: string, host: string, path: string)
    requires Kubeconfig.Table(parse, cfg, Kubeconfig.FoldedKeyOf, cfg.contexts.Keys, tokens) && Kubeconfig.CaseIsHarmless(parse, cfg)
    requires c < |creds| && HoldsKubeconfig(creds[c], parse, cfg) && Kubeconfig.Resolvable(parse, cfg, a)
    requires var u := Kubeconfig.ContextUrl(parse, cfg, a);
             ProperServer(u) && Plain(u.hostname) && Addresses(host, u) && OnlyCredential(creds, builtins, c, u)
    requires RouteShadowing.BareServers(servers)
    ensures Carries(RoutesIn(Compiled(creds, servers, webSearch, builtins)), creds[c], tokens, host, path, Kubeconfig.TokenOf(parse, cfg, a))
    ensures ConnectDecision(RoutesIn(Compiled(creds, servers, webSearch, builtins)), host) == Mitm
  {
    var u := Kubeconfig.ContextUrl(parse, cfg, a);
    ContextIsCarried(creds[c], parse, cfg, a);
    TokenReady(parse, cfg, tokens, a, host);
    OnlyKubeOffered(creds, servers, webSearch, builtins, c, u, host);
    AllKubeServes(RoutesIn(Compiled(creds, servers, webSearch, builtins)), creds[c], host, path);
  }

  lemma OnlyKubeOffered(
      creds: seq<Credential>, servers: seq<McpServer>, webSearch: Option<string>, builtins: seq<Builtin>,
      c: nat, u: Kubeconfig.Url, host: string)
    requires c < |creds| && CarriesServer(creds[c], u) && OnlyCredential(creds, builtins, c, u) && RouteShadowing.BareServers(servers)
    requires ProperServer(u) && Plain(u.hostname) && Addresses(host, u)
    ensures var routes := RoutesIn(Compiled(creds, servers, webSearch, builtins));
            && Matching(routes, host) != []
            && forall k :: 0 <= k < |Matching(routes, host)| ==> KubeRoute(routes[Matching(routes, host)[k]], creds[c])
  {
    var out := Compiled(creds, servers, webSearch, builtins);
    var ms := Matching(RoutesIn(out), host);
    ServerReachableIff(creds, servers, webSearch, builtins, c, u, host);
    forall k | 0 <= k < |ms| ensures KubeRoute(out[ms[k]].route, creds[c]) {
      OfferedIsPort(RoutesIn(out), host, creds[c], u, k);
      assert out[ms[k]] in out;
      PortRouteIsOwn(creds, servers, webSearch, builtins, c, u, host, out[ms[k]]);
    }
  }

  lemma AllKubeServes(routes: seq<Route>, cred: Credential, host: string, path: string)
    requires Matching(routes, host) != []
    requires forall k :: 0 <= k < |Matching(routes, host)| ==> KubeRoute(routes[Matching(routes, host)[k]], cred)
    ensures var r := Select(routes, host, path); r.Some? && KubeRoute(routes[r.value], cred) && PathAllowed(routes[r.value], path)
    ensures ConnectDecision(routes, host) == Mitm
  {
    var ms := Matching(routes, host);
    UnrestrictedChoosesFirst(routes, ms, path == "", EntryTest(path));
    assert NeedsMITM(routes[ms[0]]);
  }

  /** With a route on the port among those chosen from, all of them are. */
  lemma OfferedIsPort(routes: seq<Route>, host: string, cred: Credential, u: Kubeconfig.Url, k: nat)
    requires ProperServer(u) && Plain(u.hostname) && Addresses(host, u) && Offered(routes, host, cred, u) && k < |Matching(routes, host)|
    ensures RouteTier(routes[Matching(routes, host)[k]], host) == Some(PortExact)
  {
    var ms := Matching(routes, host);
    var l :| 0 <= l < |ms| && ServesServer(routes[ms[l]], cred, u);
    var cluster := KubeCluster(u.hostname, u.port, "");
    ClusterRouteIff(cred, cluster, u, host);
    assert RouteTier(routes[ms[l]], host) == RouteTier(ClusterRoute(cred, cluster), host);
    TopTierIsHighest(routes, HostTest(host), k, ms[l]);
  }

  /******* Servers the written domain cannot stand for *******/

  /** No route that applies to the request is on another domain than the server's. */
  ghost predicate NothingElse(out: seq<Emitted>, u: Kubeconfig.Url, host: string) {
    forall e :: e in out && RouteTier(e.route, host).Some? ==> e.route.domain == u.hostname + ":" + u.port
  }

  /** Where the host name is not plain and no other route applies, the proxy refuses every request to the server. */
  lemma UnplainIsRefused(out: seq<Emitted>, cred: Credential, u: Kubeconfig.Url, host: string, path: string)
    requires ProperServer(u) && !Plain(u.hostname) && Addresses(host, u) && NothingElse(out, u, host)
    ensures Select(RoutesIn(out), host, path).None? && ConnectDecision(RoutesIn(out), host) == Reject
  {
    var routes, cluster := RoutesIn(out), KubeCluster(u.hostname, u.port, "");
    ClusterRouteIff(cred, cluster, u, host);
    forall k | 0 <= k < |routes| ensures RouteTier(routes[k], host).None? {
      assert out[k] in out;
      SameDomainSameTier(routes[k], ClusterRoute(cred, cluster), host);
    }
    NoneApplies(routes, host);
  }

  lemma SameDomainSameTier(r: Route, s: Route, host: string)
    ensures r.domain == s.domain ==> RouteTier(r, host) == RouteTier(s, host)
  {
  }

  lemma NoneApplies(routes: seq<Route>, host: string)
    requires forall k :: 0 <= k < |routes| ==> RouteTier(routes[k], host).None?
    ensures Matching(routes, host) == []
  {
    var ms := Matching(routes, host);
    if ms != [] {
      TopTierIsHighest(routes, HostTest(host), 0, ms[0]);
    }
  }

  const V6_URL := Kubeconfig.Url("::1", "6443")
  const V6_CONFIG :=
    Kubeconfig.Config(map["u" := Kubeconfig.ALICE], map["k" := Kubeconfig.Cluster("https://[::1]:6443", false)],
                      map["x" := Kubeconfig.Context("k", "u")])
  const V6_CREDENTIAL :=
    Credential("kube", Kubernetes, "", "", "", "", map[], [], "", "", "", "", "", "", "", "", [], Some([KubeCluster("::1", "6443", "")]))

  lemma V6Proper()
    ensures ProperServer(V6_URL) && !Plain(V6_URL.hostname) && Addresses("[::1]:6443", V6_URL)
  {
    assert V6_URL.hostname[0] == ':';
    assert JoinHostPort("::1", "6443") == "[::1]:6443";
    assert Lower("::1") == Lower(V6_URL.hostname);
  }

  lemma V6Accepted(parse: Kubeconfig.Parser)
    requires parse("https://[::1]:6443") == Some(V6_URL)
    ensures Kubeconfig.Acceptable(parse, V6_CONFIG) && Kubeconfig.CaseIsHarmless(parse, V6_CONFIG)
    ensures Kubeconfig.Resolvable(parse, V6_CONFIG, "x") && Kubeconfig.ContextUrl(parse, V6_CONFIG, "x") == V6_URL
    ensures Kubeconfig.TokenOf(parse, V6_CONFIG, "x") == Kubeconfig.ALICE.token
  {
  }

  lemma V6Brings(e: Emitted)
    requires e in RoutesOf(V6_CREDENTIAL)
    ensures e.route.domain == "::1" + ":" + "6443"
  {
  }

  lemma V6Routes(e: Emitted)
    requires e in Compiled([V6_CREDENTIAL], [], None, [])
    ensures e.route.domain == "::1" + ":" + "6443"
  {
    RouteTheorems.GeneratedMembers([V6_CREDENTIAL], [], None, [], e);
    var c := RouteTheorems.BroughtBySome([V6_CREDENTIAL], e !in CredentialRoutes([V6_CREDENTIAL], false), e);
    assert [V6_CREDENTIAL][c] == V6_CREDENTIAL;
    V6Brings(e);
  }

  lemma V6Refused(host: string, path: string)
    requires Addresses(host, V6_URL)
    ensures var g := Generate([V6_CREDENTIAL], [], None, []);
            g.Ok? && Select(RoutesIn(g.value), host, path).None? && ConnectDecision(RoutesIn(g.value), host) == Reject
  {
    V6Proper();
    var out := Compiled([V6_CREDENTIAL], [], None, []);
    forall e | e in out ensures e.route.domain == V6_URL.hostname + ":" + V6_URL.port {
      V6Routes(e);
    }
    UnplainIsRefused(out, V6_CREDENTIAL, V6_URL, host, path);
  }

  lemma V6Token(parse: Kubeconfig.Parser, tokens: map<string, string>, host: string)
    requires parse("https://[::1]:6443") == Some(V6_URL) && Addresses(host, V6_URL)
    requires Kubeconfig.Table(parse, V6_CONFIG, Kubeconfig.FoldedKeyOf, V6_CONFIG.contexts.Keys, tokens)
    ensures Kubeconfig.Inject(tokens, host) == Ok("Bearer " + Kubeconfig.ALICE.token)
  {
    V6Accepted(parse);
    V6Proper();
    TokenReady(parse, V6_CONFIG, tokens, "x", host);
  }

  /**
   A kubeconfig with an IPv6 server is accepted and the injector has its token ready for every
   request to the server, but the proxy refuses them all.
   */
  lemma Ipv6IsAcceptedButRefused(parse: Kubeconfig.Parser, tokens: map<string, string>, host: string, path: string)
    requires parse("https://[::1]:6443") == Some(V6_URL) && Addresses(host, V6_URL)
    requires Kubeconfig.Table(parse, V6_CONFIG, Kubeconfig.FoldedKeyOf, V6_CONFIG.contexts.Keys, tokens)
    ensures Kubeconfig.Acceptable(parse, V6_CONFIG) && CarriesServer(V6_CREDENTIAL, V6_URL)
    ensures Kubeconfig.Inject(tokens, host) == Ok("Bearer " + Kubeconfig.ALICE.token)
    ensures var g := Generate([V6_CREDENTIAL], [], None, []);
            g.Ok? && Select(RoutesIn(g.value), host, path).None? && ConnectDecision(RoutesIn(g.value), host) == Reject
  {
    V6Accepted(parse);
    V6Token(parse, tokens, host);
    V6Refused(host, path);
    assert V6_CREDENTIAL.clusters.value[0] == KubeCluster("::1", "6443", "");
  }
}
