/**
 What the written routes hold, field by field: the injector and secrets of each kind of
 credential, the routes of servers, searches, channels, clusters and builtins, and when the
 compiler writes none.
 */
module RouteContents {
  import opened Basics
  import opened Strings
  import opened Routes
  import opened RouteCompiler
  import opened RouteTheorems
  import opened ProxyMatcher
  import opened Selection
  import RouteOrder
  import RouteShadowing
  import StableSort

  /******* Names of environment variables *******/

  /** The variable is named after the credential, in upper case and with underscores for dashes. */
  predicate NamedFor(variable: string, credential: string) {
    && |variable| == 5 + |credential| && variable[..5] == "CRED_"
    && forall i :: 0 <= i < |credential| ==>
         variable[5 + i] == (if credential[i] == '-' then '_'
                             else if 'a' <= credential[i] <= 'z' then (credential[i] as int - 'a' as int + 'A' as int) as char
                             else credential[i])
  }

  /** Lower-case letters, digits and dashes. */
  predicate DnsName(s: string) {
    forall i :: 0 <= i < |s| ==> 'a' <= s[i] <= 'z' || '0' <= s[i] <= '9' || s[i] == '-'
  }

  lemma EnvVarMeans(credential: string)
    ensures NamedFor(EnvVarName(credential), credential)
  {
    assert EnvVarName(credential)[..5] == "CRED_";
  }

  lemma NamedForOne(variable: string, a: string, b: string)
    requires DnsName(a) && DnsName(b) && NamedFor(variable, a) && NamedFor(variable, b)
    ensures a == b
  {
    forall i | 0 <= i < |a| ensures a[i] == b[i] {
      assert variable[5 + i] == variable[5 + i];
    }
  }

  /** Two credentials never share a variable. */
  lemma EnvVarsDiffer(a: string, b: string)
    requires DnsName(a) && DnsName(b) && EnvVarName(a) == EnvVarName(b)
    ensures a == b
  {
    EnvVarMeans(a);
    EnvVarMeans(b);
    NamedForOne(EnvVarName(a), a, b);
  }

  /******* Credentials *******/

  /** What the proxy needs to inject the credential, by its kind. */
  predicate Carries(route: Route, cred: Credential) {
    match cred.kind
    case APIKey =>
      route.injector == "api_key" && NamedFor(route.envVar, cred.name) && route.header == cred.header && route.valuePrefix == cred.valuePrefix
    case Bearer => route.injector == "bearer" && NamedFor(route.envVar, cred.name)
    case BasicAuth => route.injector == "basic" && NamedFor(route.envVar, cred.name) && route.basicUsername == cred.basicUsername
    case GCP =>
      && route.injector == "gcp" && route.saFilePath == "/etc/proxy/credentials/" + (cred.name + "/sa-key.json")
      && route.gcpProject == cred.gcpProject && route.gcpLocation == cred.gcpLocation
    case NoAuth => route.injector == "none"
    case PathToken => route.injector == "path_token" && NamedFor(route.envVar, cred.name) && route.pathPrefix == cred.pathTokenPrefix
    case OAuth2 =>
      && route.injector == "oauth2" && NamedFor(route.envVar, cred.name)
      && route.clientID == cred.clientID && route.tokenURL == cred.tokenURL && route.scopes == cred.scopes
    case Kubernetes => route.injector == ""
    case Unknown => route.injector == ""
  }

  /** Settings of other kinds stay empty. */
  predicate CarriesNoMore(route: Route, kind: Kind) {
    && (kind !in {APIKey, Bearer, BasicAuth, PathToken, OAuth2} ==> route.envVar == "")
    && (kind != APIKey ==> route.header == "" && route.valuePrefix == "")
    && (kind != BasicAuth ==> route.basicUsername == "")
    && (kind != GCP ==> route.saFilePath == "" && route.gcpProject == "" && route.gcpLocation == "")
    && (kind != OAuth2 ==> route.clientID == "" && route.tokenURL == "" && route.scopes == [])
    && route.kubeconfigPath == "" && route.caCert == ""
  }

  /** Providers get a path of their own on the proxy, unless they use the path or a cloud SDK themselves. */
  predicate OnGateway(cred: Credential) {
    && cred.provider != "" && cred.kind != PathToken
    && (cred.kind == GCP ==> cred.provider == "google")
  }

  predicate GatewayFields(route: Route, cred: Credential) {
    if OnGateway(cred) then route.pathPrefix == "/" + Lower(cred.name) && route.upstream == cred.upstream
    else route.upstream == "" && (cred.kind != PathToken ==> route.pathPrefix == "")
  }

  lemma BuiltRouteCarries(cred: Credential)
    ensures var r := BuildCredentialRoute(cred);
            && Carries(r, cred) && CarriesNoMore(r, cred.kind) && r.upstream == "" && (cred.kind != PathToken ==> r.pathPrefix == "")
            && r.allowedPaths == cred.allowedPaths && r.defaultHeaders == cred.defaultHeaders
  {
    EnvVarMeans(cred.name);
  }

  lemma OwnRouteCarries(cred: Credential)
    ensures var r := OwnRoute(cred);
            && Carries(r, cred) && CarriesNoMore(r, cred.kind) && GatewayFields(r, cred)
            && r.domain == cred.domain && r.allowedPaths == cred.allowedPaths && r.defaultHeaders == cred.defaultHeaders
  {
    BuiltRouteCarries(cred);
  }

  /** Every credential with a domain has a route on it that carries it, with its paths and headers. */
  lemma CredentialInConfig(
      creds: seq<Credential>, servers: seq<McpServer>, webSearch: Option<string>, builtins: seq<Builtin>, c: nat)
    requires Generate(creds, servers, webSearch, builtins).Ok?
    requires c < |creds| && creds[c].kind != Kubernetes && creds[c].domain != ""
    ensures exists e :: e in Generate(creds, servers, webSearch, builtins).value
              && e.route.domain == creds[c].domain && Carries(e.route, creds[c]) && CarriesNoMore(e.route, creds[c].kind)
              && GatewayFields(e.route, creds[c])
              && e.route.allowedPaths == creds[c].allowedPaths && e.route.defaultHeaders == creds[c].defaultHeaders
  {
    var e := Emitted(OwnRoute(creds[c]), FromCredential);
    OwnRouteEmitted(creds, c);
    GeneratedMembers(creds, servers, webSearch, builtins, e);
    OwnRouteCarries(creds[c]);
  }

  /** Where only such routes match a host, CONNECT intercepts it, unless there is nothing to inject, filter or add. */
  lemma CredentialIsIntercepted(routes: seq<Route>, host: string, cred: Credential)
    requires Matching(routes, host) != []
    requires forall k :: 0 <= k < |Matching(routes, host)| ==>
               var r := routes[Matching(routes, host)[k]];
               Carries(r, cred) && r.allowedPaths == cred.allowedPaths && r.defaultHeaders == cred.defaultHeaders
    ensures ConnectDecision(routes, host)
            == if NothingToDo(cred) then Direct else Mitm
  {
    var ms := Matching(routes, host);
    forall k | 0 <= k < |ms| ensures NeedsMITM(routes[ms[k]]) <==> !NothingToDo(cred) {
      NeedsIff(routes[ms[k]], cred);
    }
    assert 0 < |ms| && NeedsMITM(routes[ms[0]]) <==> !NothingToDo(cred);
  }

  predicate NothingToDo(cred: Credential) {
    cred.kind == NoAuth && cred.allowedPaths == [] && cred.defaultHeaders == map[]
  }

  lemma NeedsIff(route: Route, cred: Credential)
    requires Carries(route, cred) && route.allowedPaths == cred.allowedPaths && route.defaultHeaders == cred.defaultHeaders
    ensures NeedsMITM(route) <==> !NothingToDo(cred)
  {
    assert |route.defaultHeaders| == 0 ==> route.defaultHeaders == map[];
  }

  /******* MCP servers *******/

  /** The credential a server means: the last one of that name. */
  ghost predicate Means(creds: seq<Credential>, ref: string, i: int) {
    0 <= i < |creds| && creds[i].name == ref && forall j :: i < j < |creds| ==> creds[j].name != ref
  }

  lemma {:induction false} NamedMeans(creds: seq<Credential>, ref: string)
    ensures match CredentialNamed(creds, ref)
            case None => forall i :: 0 <= i < |creds| ==> creds[i].name != ref
            case Some(cred) => exists i :: Means(creds, ref, i) && creds[i] == cred
  {
    if creds != [] {
      var last := |creds| - 1;
      if creds[last].name == ref {
        assert Means(creds, ref, last);
      } else {
        NamedMeans(creds[..last], ref);
        if CredentialNamed(creds[..last], ref).Some? {
          var i :| Means(creds[..last], ref, i) && creds[..last][i] == CredentialNamed(creds, ref).value;
          assert Means(creds, ref, i);
        }
      }
    }
  }

  /** An HTTP server that names a credential which is not there. */
  ghost predicate NamesNone(creds: seq<Credential>, s: McpServer) {
    s.url != "" && s.credentialRef != "" && forall j :: 0 <= j < |creds| ==> creds[j].name != s.credentialRef
  }

  /** No config is written exactly if an HTTP server names a credential that is not there. */
  lemma GenerateFailsIff(creds: seq<Credential>, servers: seq<McpServer>, webSearch: Option<string>, builtins: seq<Builtin>)
    ensures Generate(creds, servers, webSearch, builtins).Err? <==>
              exists i :: 0 <= i < |servers| && NamesNone(creds, servers[i])
  {
    forall i | 0 <= i < |servers| ensures RefMissing(creds, servers[i]) <==> NamesNone(creds, servers[i]) {
      NamedMeans(creds, servers[i].credentialRef);
    }
  }

  /** The route of a server that names a credential: the server's host, the credential's secrets, no paths and no headers. */
  ghost predicate ServesServer(route: Route, creds: seq<Credential>, s: McpServer) {
    && route.domain == Lower(s.host) && route.allowedPaths == [] && route.defaultHeaders == map[]
    && exists i :: Means(creds, s.credentialRef, i) && Carries(route, creds[i]) && CarriesNoMore(route, creds[i].kind)
  }

  lemma McpRouteServes(creds: seq<Credential>, s: McpServer)
    requires s.url != "" && s.credentialRef != "" && !RefMissing(creds, s)
    ensures ServesServer(McpRoute(creds, s), creds, s)
  {
    NamedMeans(creds, s.credentialRef);
    var cred := CredentialNamed(creds, s.credentialRef).value;
    var i :| Means(creds, s.credentialRef, i) && creds[i] == cred;
    BuiltRouteCarries(cred);
  }

  lemma {:induction false} PassBrings(creds: seq<Credential>, withCredential: bool, acc: Acc, servers: seq<McpServer>, e: Emitted)
    requires e in AddServers(creds, withCredential, acc, servers).out && e !in acc.out
    ensures e.origin == McpOrigin(withCredential)
    ensures exists i :: 0 <= i < |servers| && Wanted(servers[i], withCredential) && e.route == McpRoute(creds, servers[i])
  {
    var last := |servers| - 1;
    if e in AddServers(creds, withCredential, acc, servers[..last]).out {
      PassBrings(creds, withCredential, acc, servers[..last], e);
      var i :| 0 <= i < last && Wanted(servers[..last][i], withCredential) && e.route == McpRoute(creds, servers[..last][i]);
      assert servers[i] == servers[..last][i];
    } else {
      assert Wanted(servers[last], withCredential) && e.route == McpRoute(creds, servers[last]);
    }
  }

  lemma {:induction false} BuiltinOrigins(acc: Acc, builtins: seq<Builtin>)
    requires forall e :: e in acc.out ==> e.origin == FromBuiltin
    ensures forall e :: e in AddBuiltins(acc, builtins).out ==> e.origin == FromBuiltin
  {
    if builtins != [] {
      BuiltinOrigins(acc, builtins[..|builtins| - 1]);
    }
  }

  lemma BaseOrigins(creds: seq<Credential>, webSearch: Option<string>, builtins: seq<Builtin>, e: Emitted)
    requires e in Base(creds, webSearch, builtins).out
    ensures e.origin in {FromBuiltin, FromWebSearch}
  {
    BuiltinOrigins(Acc([], CredentialDomains(creds)), builtins);
  }

  lemma FromMcpServers(
      creds: seq<Credential>, servers: seq<McpServer>, webSearch: Option<string>, builtins: seq<Builtin>, withCredential: bool, e: Emitted)
    requires e in Compiled(creds, servers, webSearch, builtins) && e.origin == McpOrigin(withCredential)
    ensures exists i :: 0 <= i < |servers| && Wanted(servers[i], withCredential) && e.route == McpRoute(creds, servers[i])
  {
    GeneratedMembers(creds, servers, webSearch, builtins, e);
    var base := Base(creds, webSearch, builtins);
    var mid := AddServers(creds, true, base, servers);
    if e in CredentialRoutes(creds, false) { CredentialRoutesOrigin(creds, false, e); }
    if e in CredentialRoutes(creds, true) { CredentialRoutesOrigin(creds, true, e); }
    if e in base.out { BaseOrigins(creds, webSearch, builtins, e); }
    if e in mid.out {
      PassBrings(creds, true, base, servers, e);
    } else {
      PassBrings(creds, false, mid, servers, e);
    }
  }

  /** Every route written for a server with a credential serves such a server; the others inject, filter and add nothing. */
  lemma McpRoutesInConfig(
      creds: seq<Credential>, servers: seq<McpServer>, webSearch: Option<string>, builtins: seq<Builtin>, e: Emitted)
    requires Generate(creds, servers, webSearch, builtins).Ok? && e in Generate(creds, servers, webSearch, builtins).value
    ensures e.origin == FromMcpCredential ==>
              exists i :: 0 <= i < |servers| && servers[i].credentialRef != "" && ServesServer(e.route, creds, servers[i])
    ensures e.origin == FromMcp ==>
              exists i :: 0 <= i < |servers| && servers[i].credentialRef == "" && e.route == PlainRoute(Lower(servers[i].host), "none")
  {
    if e.origin == FromMcpCredential {
      FromMcpServers(creds, servers, webSearch, builtins, true, e);
      var i :| 0 <= i < |servers| && Wanted(servers[i], true) && e.route == McpRoute(creds, servers[i]);
      McpRouteServes(creds, servers[i]);
    } else if e.origin == FromMcp {
      FromMcpServers(creds, servers, webSearch, builtins, false, e);
    }
  }

  /** A server with a credential on a host that nothing covers has a route that serves it or another one on that host. */
  lemma McpServerInConfig(
      creds: seq<Credential>, servers: seq<McpServer>, webSearch: Option<string>, builtins: seq<Builtin>, s: McpServer)
    requires Generate(creds, servers, webSearch, builtins).Ok? && RouteShadowing.BareServers(servers)
    requires s in servers && s.url != "" && s.host != "" && s.credentialRef != ""
    requires !DomainCovered(Lower(s.host), Base(creds, webSearch, builtins).covered)
    ensures exists e, i :: e in Generate(creds, servers, webSearch, builtins).value && e.origin == FromMcpCredential
              && 0 <= i < |servers| && Lower(servers[i].host) == Lower(s.host) && ServesServer(e.route, creds, servers[i])
  {
    var e, t := FirstPassServer(creds, servers, Base(creds, webSearch, builtins), s);
    var k :| 0 <= k < |servers| && servers[k] == t;
    assert !RefMissing(creds, servers[k]);
    McpRouteServes(creds, t);
    FirstPassEmitted(creds, servers, webSearch, builtins, e);
  }

  lemma FirstPassServer(creds: seq<Credential>, servers: seq<McpServer>, base: Acc, s: McpServer) returns (e: Emitted, t: McpServer)
    requires RouteShadowing.BareServers(servers) && s in servers && Wanted(s, true) && !DomainCovered(Lower(s.host), base.covered)
    ensures t in servers && Wanted(t, true) && Lower(t.host) == Lower(s.host) && e == Emitted(McpRoute(creds, t), FromMcpCredential)
    ensures e in AddServers(creds, true, base, servers).out
  {
    RouteShadowing.BareServersApart(true, base.covered, servers);
    var es := RouteOrder.ServersShape(creds, true, base, servers);
    var i :| 0 <= i < |servers| && servers[i] == s;
    assert Lower(servers[i].host) in RouteOrder.FreshHosts(servers, true, base.covered);
    e :| e in es && e.route.domain == Lower(s.host);
    t :| t in servers && Wanted(t, true) && e == Emitted(McpRoute(creds, t), FromMcpCredential);
  }

  lemma FirstPassEmitted(creds: seq<Credential>, servers: seq<McpServer>, webSearch: Option<string>, builtins: seq<Builtin>, e: Emitted)
    requires e in AddServers(creds, true, Base(creds, webSearch, builtins), servers).out
    ensures e in Compiled(creds, servers, webSearch, builtins)
  {
    StaysEmitted(creds, false, AddServers(creds, true, Base(creds, webSearch, builtins), servers), servers, e);
    GeneratedMembers(creds, servers, webSearch, builtins, e);
  }

  lemma {:induction false} StaysEmitted(creds: seq<Credential>, withCredential: bool, acc: Acc, servers: seq<McpServer>, e: Emitted)
    requires e in acc.out
    ensures e in AddServers(creds, withCredential, acc, servers).out
  {
    if servers != [] {
      StaysEmitted(creds, withCredential, acc, servers[..|servers| - 1], e);
    }
  }

  /******* Coverage *******/

  /** A domain takes another: the same, or a dotted one and a name that ends in it. */
  ghost predicate Takes(c: string, domain: string) {
    domain == c || (HasPrefix(c, ".") && exists x :: domain == x + c)
  }

  lemma CoveredMeans(domain: string, covered: set<string>)
    ensures DomainCovered(domain, covered) <==> exists c :: c in covered && Takes(c, domain)
  {
    forall c | c in covered && HasPrefix(c, ".") ensures HasSuffix(domain, c) <==> exists x :: domain == x + c {
      if HasSuffix(domain, c) {
        assert domain == domain[..|domain| - |c|] + c;
      }
      if x :| domain == x + c {
        assert domain[|domain| - |c|..] == c;
      }
    }
  }

  lemma {:induction false} BuiltinsCover(acc: Acc, builtins: seq<Builtin>, d: string)
    ensures d in AddBuiltins(acc, builtins).covered <==> d in acc.covered || exists b :: b in builtins && b.domain == d
  {
    if builtins != [] {
      var last := |builtins| - 1;
      BuiltinsCover(acc, builtins[..last], d);
      assert builtins == builtins[..last] + [builtins[last]];
    }
  }

  /** Some credential's domain, or some builtin's, takes the domain. */
  ghost predicate TakenByInputs(creds: seq<Credential>, builtins: seq<Builtin>, d: string) {
    || (exists i :: 0 <= i < |creds| && Takes(Lower(creds[i].domain), d))
    || (exists i :: 0 <= i < |builtins| && Takes(builtins[i].domain, d))
  }

  lemma TakenFirstMeans(creds: seq<Credential>, builtins: seq<Builtin>, d: string)
    ensures DomainCovered(d, RouteShadowing.TakenFirst(creds, builtins).covered) <==> TakenByInputs(creds, builtins, d)
  {
    var covered := RouteShadowing.TakenFirst(creds, builtins).covered;
    CoveredMeans(d, covered);
    forall c ensures c in covered <==> c in CredentialDomains(creds) || exists b :: b in builtins && b.domain == c {
      BuiltinsCover(Acc([], CredentialDomains(creds)), builtins, c);
    }
    if TakenByInputs(creds, builtins, d) {
      if i :| 0 <= i < |creds| && Takes(Lower(creds[i].domain), d) {
        assert Lower(creds[i].domain) in covered;
      } else {
        var i :| 0 <= i < |builtins| && Takes(builtins[i].domain, d);
        assert builtins[i] in builtins && builtins[i].domain in covered;
      }
    }
    if c :| c in covered && Takes(c, d) {
      if b :| b in builtins && b.domain == c {
        var i :| 0 <= i < |builtins| && builtins[i] == b;
        assert Takes(builtins[i].domain, d);
      } else {
        var i :| 0 <= i < |creds| && Lower(creds[i].domain) == c;
      }
    }
  }

  /** What servers find taken: what a credential, a builtin or the web search takes. */
  lemma FreeMeans(creds: seq<Credential>, webSearch: Option<string>, builtins: seq<Builtin>, d: string)
    ensures DomainCovered(d, Base(creds, webSearch, builtins).covered)
            <==> TakenByInputs(creds, builtins, d) || (WebSearchRoute(webSearch).Some? && WebSearchRoute(webSearch).value.domain == d)
  {
    var first, all := RouteShadowing.TakenFirst(creds, builtins).covered, Base(creds, webSearch, builtins).covered;
    TakenFirstMeans(creds, builtins, d);
    var w := WebSearchRoute(webSearch);
    if w.Some? {
      var x := w.value.domain;
      SearchDomains(webSearch);
      if DomainCovered(x, first) {
        assert all == first;
      } else {
        assert all == first + {x};
        CoveredMeans(d, all);
        CoveredMeans(d, first);
      }
    }
  }

  /******* Web search *******/

  /** The providers with a route of their own, and what the route injects. */
  lemma SearchMeans(provider: string)
    ensures var w := WebSearchRoute(Some(provider));
            && (provider == "brave" ==>
                  w == Some(PlainRoute("api.search.brave.com", "api_key").(envVar := "CRED_WEBSEARCH", header := "X-Subscription-Token")))
            && (provider == "tavily" ==> w == Some(PlainRoute("api.tavily.com", "bearer").(envVar := "CRED_WEBSEARCH")))
            && (provider == "duckduckgo" ==> w == Some(PlainRoute("html.duckduckgo.com", "none")))
            && (w.Some? ==> provider in {"brave", "tavily", "duckduckgo"})
    ensures WebSearchRoute(None).None?
  {
    assert EnvVarName("websearch") == "CRED_WEBSEARCH";
  }

  lemma LowerFixed(s: string)
    requires forall i :: 0 <= i < |s| ==> !('A' <= s[i] <= 'Z')
    ensures Lower(s) == s
  {
  }

  lemma SearchDomains(webSearch: Option<string>)
    requires WebSearchRoute(webSearch).Some?
    ensures var d := WebSearchRoute(webSearch).value.domain; Lower(d) == d && !HasPrefix(d, ".")
  {
    LowerFixed("api.search.brave.com");
    LowerFixed("api.tavily.com");
    LowerFixed("html.duckduckgo.com");
    DotFirst(WebSearchRoute(webSearch).value.domain);
  }

  /** The search route is written exactly if no credential and no builtin takes its domain. */
  lemma SearchInConfig(
      creds: seq<Credential>, servers: seq<McpServer>, webSearch: Option<string>, builtins: seq<Builtin>, route: Route)
    requires Generate(creds, servers, webSearch, builtins).Ok?
    ensures Emitted(route, FromWebSearch) in Generate(creds, servers, webSearch, builtins).value
            <==> WebSearchRoute(webSearch) == Some(route) && !TakenByInputs(creds, builtins, Lower(route.domain))
  {
    var e := Emitted(route, FromWebSearch);
    var first, base := RouteShadowing.TakenFirst(creds, builtins), Base(creds, webSearch, builtins);
    TakenFirstMeans(creds, builtins, Lower(route.domain));
    BuiltinOrigins(Acc([], CredentialDomains(creds)), builtins);
    assert e in base.out <==> WebSearchRoute(webSearch) == Some(route) && !DomainCovered(Lower(route.domain), first.covered);
    OnlyBaseBrings(creds, servers, webSearch, builtins, e);
  }

  /** Routes of builtins and of the search are taken before the servers, and nowhere else. */
  lemma OnlyBaseBrings(creds: seq<Credential>, servers: seq<McpServer>, webSearch: Option<string>, builtins: seq<Builtin>, e: Emitted)
    requires e.origin in {FromBuiltin, FromWebSearch}
    ensures e in Compiled(creds, servers, webSearch, builtins) <==> e in Base(creds, webSearch, builtins).out
  {
    GeneratedMembers(creds, servers, webSearch, builtins, e);
    var base := Base(creds, webSearch, builtins);
    var mid := AddServers(creds, true, base, servers);
    NotFromCredentials(creds, e);
    if e in base.out {
      StaysEmitted(creds, true, base, servers, e);
      StaysEmitted(creds, false, mid, servers, e);
    } else if e in AddServers(creds, false, mid, servers).out {
      if e in mid.out {
        PassBrings(creds, true, base, servers, e);
      } else {
        PassBrings(creds, false, mid, servers, e);
      }
    }
  }

  lemma NotFromCredentials(creds: seq<Credential>, e: Emitted)
    requires e.origin in {FromBuiltin, FromWebSearch}
    ensures e !in CredentialRoutes(creds, false) && e !in CredentialRoutes(creds, true)
  {
    if suffix: bool :| e in CredentialRoutes(creds, suffix) {
      var c := BroughtBySome(creds, suffix, e);
      RoutesOfOrigins(creds[c], e);
    }
  }

  lemma RoutesOfOrigins(cred: Credential, e: Emitted)
    requires e in RoutesOf(cred)
    ensures e.origin in {FromCredential, FromCluster, FromCompanion}
  {
  }

  /******* Builtins *******/

  lemma {:induction false} BuiltinOut(domains: set<string>, builtins: seq<Builtin>, e: Emitted)
    ensures e in AddBuiltins(Acc([], domains), builtins).out
            <==> exists i :: FirstBuiltin(domains, builtins, i) && e == Emitted(PlainRoute(builtins[i].domain, "none").(allowedPaths := builtins[i].allowedPaths), FromBuiltin)
  {
    if builtins != [] {
      var last := |builtins| - 1;
      var init := builtins[..last];
      BuiltinOut(domains, init, e);
      BuiltinsCover(Acc([], domains), init, builtins[last].domain);
      forall i | 0 <= i < last ensures FirstBuiltin(domains, init, i) <==> FirstBuiltin(domains, builtins, i) {
        assert init[i] == builtins[i];
      }
      LastBuiltin(domains, builtins);
    }
  }

  lemma LastBuiltin(domains: set<string>, builtins: seq<Builtin>)
    requires builtins != []
    ensures var last := |builtins| - 1;
            FirstBuiltin(domains, builtins, last) <==>
              builtins[last].domain !in domains && !exists b :: b in builtins[..last] && b.domain == builtins[last].domain
  {
    var last := |builtins| - 1;
    assert forall j :: 0 <= j < last ==> builtins[j] == builtins[..last][j] && builtins[j] in builtins[..last];
  }

  /** The first builtin of its domain, which no credential has. */
  ghost predicate FirstBuiltin(domains: set<string>, builtins: seq<Builtin>, i: int) {
    0 <= i < |builtins| && builtins[i].domain !in domains && forall j :: 0 <= j < i ==> builtins[j].domain != builtins[i].domain
  }

  /** The first builtin of each domain that no credential has is passed through, on its paths only. */
  lemma BuiltinsInConfig(
      creds: seq<Credential>, servers: seq<McpServer>, webSearch: Option<string>, builtins: seq<Builtin>, route: Route)
    requires Generate(creds, servers, webSearch, builtins).Ok?
    ensures Emitted(route, FromBuiltin) in Generate(creds, servers, webSearch, builtins).value
            <==> exists i :: FirstBuiltin(CredentialDomains(creds), builtins, i)
                             && route == PlainRoute(builtins[i].domain, "none").(allowedPaths := builtins[i].allowedPaths)
  {
    var e := Emitted(route, FromBuiltin);
    OnlyBaseBrings(creds, servers, webSearch, builtins, e);
    BuiltinOut(CredentialDomains(creds), builtins, e);
  }

  /******* Channels and clusters *******/

  /** Domains a channel needs beside its own. */
  predicate ChannelNeeds(channel: string, d: string) {
    || (channel == "discord" && d in {"gateway.discord.gg", "cdn.discordapp.com"})
    || (channel == "slack" && d == ".slack.com")
    || (channel == "whatsapp" && d in {".whatsapp.com", ".whatsapp.net", ".facebook.com", ".facebook.net", ".fbcdn.net"})
  }

  lemma CompanionsMean(channel: string, d: string)
    ensures d in Companions(channel) <==> ChannelNeeds(channel, d)
  {
  }

  lemma CompanionBrought(cred: Credential, e: Emitted)
    requires e.origin == FromCompanion
    ensures e in RoutesOf(cred) <==> cred.kind != Kubernetes && ChannelNeeds(cred.channel, e.route.domain) && e.route == PlainRoute(e.route.domain, "none")
  {
    var domains := Companions(cred.channel);
    CompanionsMean(cred.channel, e.route.domain);
    if e.route.domain in domains && e.route == PlainRoute(e.route.domain, "none") {
      var i :| 0 <= i < |domains| && domains[i] == e.route.domain;
      assert CompanionRoutes(cred)[i] == e;
    }
  }

  /** A channel's companions are passed through. */
  lemma CompanionsInConfig(
      creds: seq<Credential>, servers: seq<McpServer>, webSearch: Option<string>, builtins: seq<Builtin>, c: nat, d: string)
    requires Generate(creds, servers, webSearch, builtins).Ok?
    requires c < |creds| && creds[c].kind != Kubernetes && ChannelNeeds(creds[c].channel, d)
    ensures Emitted(PlainRoute(d, "none"), FromCompanion) in Generate(creds, servers, webSearch, builtins).value
  {
    var e := Emitted(PlainRoute(d, "none"), FromCompanion);
    CompanionBrought(creds[c], e);
    BroughtBy(creds, c, IsSuffixRoute(e), e);
    GeneratedMembers(creds, servers, webSearch, builtins, e);
  }

  /** Each cluster of a kubeconfig has a route on its name and port, with its certificate and the credential's headers. */
  lemma ClusterInConfig(
      creds: seq<Credential>, servers: seq<McpServer>, webSearch: Option<string>, builtins: seq<Builtin>, c: nat, i: nat)
    requires Generate(creds, servers, webSearch, builtins).Ok?
    requires c < |creds| && creds[c].kind == Kubernetes && creds[c].clusters.Some? && i < |creds[c].clusters.value|
    ensures exists e :: e in Generate(creds, servers, webSearch, builtins).value
              && e.route.domain == creds[c].clusters.value[i].hostname + ":" + creds[c].clusters.value[i].port
              && e.route.injector == "kubernetes" && e.route.kubeconfigPath == "/etc/proxy/credentials/" + creds[c].name + "/kubeconfig"
              && e.route.caCert == creds[c].clusters.value[i].caCert && e.route.defaultHeaders == creds[c].defaultHeaders
              && e.route.allowedPaths == []
  {
    var e := Emitted(ClusterRoute(creds[c], creds[c].clusters.value[i]), FromCluster);
    assert RoutesOf(creds[c])[i] == e;
    BroughtBy(creds, c, false, e);
    GeneratedMembers(creds, servers, webSearch, builtins, e);
  }

  /******* Order *******/

  /** Byte order: the first difference decides, and a prefix comes first. */
  ghost predicate Precedes(a: string, b: string) {
    exists n :: 0 <= n <= |a| && n <= |b| && a[..n] == b[..n]
                && (if n < |a| then n < |b| && a[n] < b[n] else n < |b|)
  }

  lemma {:induction false} LessMeans(a: string, b: string)
    ensures Less(a, b) <==> Precedes(a, b)
  {
    if a == "" || b == "" {
      assert a[..0] == b[..0];
    } else if a[0] == b[0] {
      LessMeans(a[1..], b[1..]);
      if n :| 0 <= n <= |a| && n <= |b| && a[..n] == b[..n] && (if n < |a| then n < |b| && a[n] < b[n] else n < |b|) {
        assert n > 0;
        assert a[1..][..n - 1] == a[..n][1..] == b[..n][1..] == b[1..][..n - 1];
        assert Precedes(a[1..], b[1..]);
      }
      if n :| 0 <= n <= |a[1..]| && n <= |b[1..]| && a[1..][..n] == b[1..][..n] && (if n < |a[1..]| then n < |b[1..]| && a[1..][n] < b[1..][n] else n < |b[1..]|) {
        assert a[..n + 1] == [a[0]] + a[1..][..n] && b[..n + 1] == [b[0]] + b[1..][..n];
        assert Precedes(a, b);
      }
    } else {
      assert a[..0] == b[..0];
      if n :| 0 <= n <= |a| && n <= |b| && a[..n] == b[..n] && (if n < |a| then n < |b| && a[n] < b[n] else n < |b|) {
        assert n > 0 ==> a[..n][0] == b[..n][0];
      }
    }
  }

  /** By domain; on one domain restricted routes before the others, then by injector. */
  ghost predicate InOrder(a: Route, b: Route) {
    || Precedes(a.domain, b.domain)
    || (a.domain == b.domain &&
          (if a.allowedPaths != [] && b.allowedPaths == [] then true
           else if a.allowedPaths == [] && b.allowedPaths != [] then false
           else a.injector == b.injector || Precedes(a.injector, b.injector)))
  }

  lemma NotLessIsInOrder(a: Route, b: Route)
    ensures !RouteLess(b, a) <==> InOrder(a, b)
  {
    LessMeans(a.domain, b.domain);
    LessMeans(a.injector, b.injector);
    LessTotal(a.domain, b.domain);
    LessTotal(a.injector, b.injector);
    assert |a.allowedPaths| > 0 <==> a.allowedPaths != [];
    assert |b.allowedPaths| > 0 <==> b.allowedPaths != [];
  }

  /** The list has two parts, each in order; the second holds the dotted routes of credentials and their companions. */
  lemma ConfigIsSorted(creds: seq<Credential>, servers: seq<McpServer>, webSearch: Option<string>, builtins: seq<Builtin>)
    requires Generate(creds, servers, webSearch, builtins).Ok?
    ensures exists n: nat :: TwoParts(Generate(creds, servers, webSearch, builtins).value, n)
  {
    var exact, suffix := ExactRoutes(creds, servers, webSearch, builtins), CredentialRoutes(creds, true);
    EmittedOrderIsStrictWeak();
    StableSort.SortKeeps(EmittedLess(), exact);
    StableSort.SortKeeps(EmittedLess(), suffix);
    var (a, b) := (StableSort.Sort(EmittedLess(), exact), StableSort.Sort(EmittedLess(), suffix));
    SortedInOrder(a);
    SortedInOrder(b);
    forall i | 0 <= i < |a| ensures !CredentialSuffix(a[i]) {
      assert a[i] in multiset(a);
      assert a[i] in exact;
      ExactHasNoSuffix(creds, servers, webSearch, builtins, a[i]);
    }
    forall i | 0 <= i < |b| ensures CredentialSuffix(b[i]) {
      assert b[i] in multiset(b);
      assert b[i] in suffix;
      SuffixIsSuffix(creds, b[i]);
    }
    assert TwoParts(a + b, |a|);
  }

  ghost predicate CredentialSuffix(e: Emitted) {
    e.origin in {FromCredential, FromCompanion} && HasPrefix(e.route.domain, ".")
  }

  ghost predicate Ordered(es: seq<Emitted>) {
    forall i, j :: 0 <= i < j < |es| ==> InOrder(es[i].route, es[j].route)
  }

  ghost predicate TwoParts(es: seq<Emitted>, n: nat) {
    && n <= |es| && Ordered(es[..n]) && Ordered(es[n..])
    && (forall i :: 0 <= i < n ==> !CredentialSuffix(es[i]))
    && (forall i :: n <= i < |es| ==> CredentialSuffix(es[i]))
  }

  lemma SortedInOrder(es: seq<Emitted>)
    requires StableSort.Sorted(EmittedLess(), es)
    ensures Ordered(es)
  {
    forall i, j | 0 <= i < j < |es| ensures InOrder(es[i].route, es[j].route) {
      NotLessIsInOrder(es[i].route, es[j].route);
    }
  }

  lemma ExactHasNoSuffix(creds: seq<Credential>, servers: seq<McpServer>, webSearch: Option<string>, builtins: seq<Builtin>, e: Emitted)
    requires e in ExactRoutes(creds, servers, webSearch, builtins)
    ensures !CredentialSuffix(e)
  {
    var base := Base(creds, webSearch, builtins);
    var mid := AddServers(creds, true, base, servers);
    if e in CredentialRoutes(creds, false) {
      NotSuffixPart(creds, e);
    } else if e in base.out {
      BaseOrigins(creds, webSearch, builtins, e);
    } else if e in mid.out {
      PassBrings(creds, true, base, servers, e);
    } else {
      PassBrings(creds, false, mid, servers, e);
    }
  }

  lemma {:induction false} NotSuffixPart(creds: seq<Credential>, e: Emitted)
    requires e in CredentialRoutes(creds, false)
    ensures !IsSuffixRoute(e)
  {
    if e in CredentialRoutes(creds[..|creds| - 1], false) {
      NotSuffixPart(creds[..|creds| - 1], e);
    }
  }

  lemma {:induction false} SuffixIsSuffix(creds: seq<Credential>, e: Emitted)
    requires e in CredentialRoutes(creds, true)
    ensures CredentialSuffix(e)
  {
    var last := |creds| - 1;
    if e in CredentialRoutes(creds[..last], true) {
      SuffixIsSuffix(creds[..last], e);
    } else {
      RoutesOfOrigins(creds[last], e);
    }
  }
}
