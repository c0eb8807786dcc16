/**
 When does the operator's own list send a credential's traffic elsewhere?  The exact
 condition, on the inputs of the compiler.
 */
module RouteShadowing {
  import opened Basics
  import opened Strings
  import opened Routes
  import opened RouteCompiler
  import opened RouteTheorems
  import opened RouteOrder
  import opened Selection
  import opened ProxyMatcher

  /** The hosts of HTTP servers are bare names: no leading dot, no port. */
  ghost predicate BareServers(servers: seq<McpServer>) {
    forall s, withCredential :: s in servers && Wanted(s, withCredential) ==> BareDomain(Lower(s.host))
  }

  /** Domains taken by the credentials and the builtins. */
  function TakenFirst(creds: seq<Credential>, builtins: seq<Builtin>): Acc {
    AddBuiltins(Acc([], CredentialDomains(creds)), builtins)
  }

  predicate WebSearchWants(creds: seq<Credential>, webSearch: Option<string>, builtins: seq<Builtin>, d: string) {
    var w := WebSearchRoute(webSearch);
    w.Some? && Lower(w.value.domain) == d && !DomainCovered(d, TakenFirst(creds, builtins).covered)
  }

  predicate ServerWants(
    creds: seq<Credential>, servers: seq<McpServer>, webSearch: Option<string>, builtins: seq<Builtin>, d: string)
  {
    && !DomainCovered(d, Base(creds, webSearch, builtins).covered)
    && exists i :: 0 <= i < |servers| && servers[i].url != "" && servers[i].host != "" && Lower(servers[i].host) == d
  }

  /** Web search or some server asks for a route on the domain, and nothing before it covers the domain. */
  predicate AdditionOn(
    creds: seq<Credential>, servers: seq<McpServer>, webSearch: Option<string>, builtins: seq<Builtin>, d: string)
  {
    WebSearchWants(creds, webSearch, builtins, d) || ServerWants(creds, servers, webSearch, builtins, d)
  }

  /** A credential, a cluster or a builtin names the very host and port. */
  ghost predicate PortRouted(creds: seq<Credential>, builtins: seq<Builtin>, host: string) {
    || (exists e :: e in TakenFirst(creds, builtins).out && RouteTier(e.route, host) == Some(PortExact))
    || (exists suffix, e :: e in CredentialRoutes(creds, suffix) && RouteTier(e.route, host) == Some(PortExact))
  }

  /******* Which routes are added *******/

  lemma NoColonIsBare(d: string)
    requires d != "" && d[0] != '.' && forall j :: 0 <= j < |d| ==> d[j] != ':'
    ensures BareDomain(Lower(d))
  {
    assert forall j :: 0 <= j < |d| ==> Lower(d)[j] != ':';
    assert AfterLast(Lower(d), ':') == 0;
    assert Lower(d)[..1] == [Lower(d)[0]];
  }

  lemma WebSearchIsBare(webSearch: Option<string>)
    requires WebSearchRoute(webSearch).Some?
    ensures BareDomain(Lower(WebSearchRoute(webSearch).value.domain))
  {
    var d := WebSearchRoute(webSearch).value.domain;
    assert d == "api.search.brave.com" || d == "api.tavily.com" || d == "html.duckduckgo.com";
    NoColonIsBare(d);
  }

  lemma {:induction false} BuiltinsAreNotAdditional(acc: Acc, builtins: seq<Builtin>)
    requires forall e :: e in acc.out ==> !Additional(e)
    ensures forall e :: e in AddBuiltins(acc, builtins).out ==> !Additional(e)
  {
    if builtins != [] {
      BuiltinsAreNotAdditional(acc, builtins[..|builtins| - 1]);
    }
  }

  /** Hosts of servers of either kind that nothing covers. */
  ghost function AllFresh(servers: seq<McpServer>, covered: set<string>): set<string> {
    FreshHosts(servers, true, covered) + FreshHosts(servers, false, covered)
  }

  lemma FreshMeansWanted(creds: seq<Credential>, servers: seq<McpServer>, webSearch: Option<string>, builtins: seq<Builtin>, d: string)
    ensures d in AllFresh(servers, Base(creds, webSearch, builtins).covered) <==> ServerWants(creds, servers, webSearch, builtins, d)
  {
    var covered := Base(creds, webSearch, builtins).covered;
    if ServerWants(creds, servers, webSearch, builtins, d) {
      var i :| 0 <= i < |servers| && servers[i].url != "" && servers[i].host != "" && Lower(servers[i].host) == d;
      assert Wanted(servers[i], servers[i].credentialRef != "");
    }
  }

  /** One additional route at least on each of the hosts, and none elsewhere. */
  ghost predicate Adds(hosts: set<string>, added: seq<Emitted>) {
    && (forall e :: e in added ==> Additional(e) && Lower(e.route.domain) == e.route.domain && e.route.domain in hosts)
    && (forall d :: d in hosts ==> exists e :: e in added && e.route.domain == d)
  }

  lemma PassAdds(creds: seq<Credential>, withCredential: bool, servers: seq<McpServer>, hosts: set<string>, es: seq<Emitted>)
    requires OnePerHost(creds, withCredential, servers, hosts, es)
    ensures Adds(hosts, es)
  {
    forall e | e in es ensures Additional(e) && Lower(e.route.domain) == e.route.domain && e.route.domain in hosts {
    }
  }

  /** The routes the two passes over the servers add: on the fresh hosts, all of them additional. */
  lemma ServersAdd(creds: seq<Credential>, base: Acc, servers: seq<McpServer>) returns (added: seq<Emitted>)
    requires BareServers(servers)
    ensures AddServers(creds, false, AddServers(creds, true, base, servers), servers).out == base.out + added
    ensures Adds(AllFresh(servers, base.covered), added)
  {
    var first, es, second, fs := TwoPasses(creds, base, servers);
    added := es + fs;
  }

  lemma TwoPasses(creds: seq<Credential>, base: Acc, servers: seq<McpServer>)
    returns (first: set<string>, es: seq<Emitted>, second: set<string>, fs: seq<Emitted>)
    requires BareServers(servers)
    ensures AddServers(creds, false, AddServers(creds, true, base, servers), servers).out == base.out + (es + fs)
    ensures Adds(first, es) && Adds(second, fs) && first + second == AllFresh(servers, base.covered)
  {
    first, es := PassResult(creds, true, base, servers);
    second, fs := PassResult(creds, false, Acc(base.out + es, base.covered + first), servers);
    assert base.out + es + fs == base.out + (es + fs);
  }

  lemma BareServersApart(withCredential: bool, covered: set<string>, servers: seq<McpServer>)
    requires BareServers(servers)
    ensures Apart(withCredential, covered, servers)
  {
    forall a, b | a in servers && b in servers && Covers(withCredential, covered, a, b) ensures Lower(a.host) == Lower(b.host) {
      assert BareDomain(Lower(a.host));
    }
  }

  lemma PassResult(creds: seq<Credential>, withCredential: bool, acc: Acc, servers: seq<McpServer>)
    returns (hosts: set<string>, es: seq<Emitted>)
    requires BareServers(servers)
    ensures hosts == FreshHosts(servers, withCredential, acc.covered)
    ensures AddServers(creds, withCredential, acc, servers) == Acc(acc.out + es, acc.covered + hosts)
    ensures Adds(hosts, es)
  {
    hosts := FreshHosts(servers, withCredential, acc.covered);
    BareServersApart(withCredential, acc.covered, servers);
    es := ServersShape(creds, withCredential, acc, servers);
    PassAdds(creds, withCredential, servers, hosts, es);
  }

  /** The additional routes of the compiled list, by domain. */
  lemma AdditionIff(
      creds: seq<Credential>, servers: seq<McpServer>, webSearch: Option<string>, builtins: seq<Builtin>, d: string)
    requires BareServers(servers)
    ensures (exists e :: e in Compiled(creds, servers, webSearch, builtins) && Additional(e) && Lower(e.route.domain) == d)
            <==> AdditionOn(creds, servers, webSearch, builtins, d)
  {
    var base := Base(creds, webSearch, builtins);
    var out := Compiled(creds, servers, webSearch, builtins);
    var added := ServersAdd(creds, base, servers);
    FreshMeansWanted(creds, servers, webSearch, builtins, d);
    BaseAdds(creds, webSearch, builtins, d);
    if e :| e in out && Additional(e) && Lower(e.route.domain) == d {
      MemberOf(creds, servers, webSearch, builtins, added, e);
    }
    if WebSearchWants(creds, webSearch, builtins, d) {
      var e :| e in base.out && Additional(e) && Lower(e.route.domain) == d;
      MemberOf(creds, servers, webSearch, builtins, added, e);
    } else if ServerWants(creds, servers, webSearch, builtins, d) {
      var e :| e in added && e.route.domain == d;
      MemberOf(creds, servers, webSearch, builtins, added, e);
    }
  }

  lemma MemberOf(
      creds: seq<Credential>, servers: seq<McpServer>, webSearch: Option<string>, builtins: seq<Builtin>,
      added: seq<Emitted>, e: Emitted)
    requires var base := Base(creds, webSearch, builtins);
             AddServers(creds, false, AddServers(creds, true, base, servers), servers).out == base.out + added
    ensures e in Compiled(creds, servers, webSearch, builtins)
            <==> e in Base(creds, webSearch, builtins).out || e in added || e in CredentialRoutes(creds, false) || e in CredentialRoutes(creds, true)
    ensures Additional(e) ==> e !in CredentialRoutes(creds, false) && e !in CredentialRoutes(creds, true)
  {
    GeneratedMembers(creds, servers, webSearch, builtins, e);
    if e in CredentialRoutes(creds, false) {
      CredentialRoutesOrigin(creds, false, e);
    }
    if e in CredentialRoutes(creds, true) {
      CredentialRoutesOrigin(creds, true, e);
    }
  }

  lemma BaseAdds(creds: seq<Credential>, webSearch: Option<string>, builtins: seq<Builtin>, d: string)
    ensures (exists e :: e in Base(creds, webSearch, builtins).out && Additional(e) && Lower(e.route.domain) == d)
            <==> WebSearchWants(creds, webSearch, builtins, d)
  {
    var taken := TakenFirst(creds, builtins);
    BuiltinsAreNotAdditional(Acc([], CredentialDomains(creds)), builtins);
    var w := WebSearchRoute(webSearch);
    if w.Some? && !DomainCovered(Lower(w.value.domain), taken.covered) {
      assert Base(creds, webSearch, builtins).out == taken.out + [Emitted(w.value, FromWebSearch)];
    }
  }

  /******* The top tier *******/

  /** Some added route is among those the proxy chooses from. */
  ghost predicate AdditionInTop(out: seq<Emitted>, host: string) {
    exists k :: 0 <= k < |Matching(RoutesIn(out), host)| && Additional(out[Matching(RoutesIn(out), host)[k]])
  }

  ghost predicate PortTier(out: seq<Emitted>, host: string) {
    exists e :: e in out && RouteTier(e.route, host) == Some(PortExact)
  }

  ghost predicate BareAdditions(out: seq<Emitted>) {
    forall e :: e in out && Additional(e) ==> BareDomain(Lower(e.route.domain))
  }

  ghost predicate AddedFor(out: seq<Emitted>, d: string) {
    exists e :: e in out && Additional(e) && Lower(e.route.domain) == d
  }

  /** The proxy chooses among added routes exactly if one is on the host's name and no route names its port. */
  lemma TopTierIff(out: seq<Emitted>, host: string)
    requires BareAdditions(out)
    ensures AdditionInTop(out, host) <==> AddedFor(out, ParseHost(host).1) && !PortTier(out, host)
  {
    var routes := RoutesIn(out);
    var ms := Matching(routes, host);
    if AdditionInTop(out, host) {
      var k :| 0 <= k < |ms| && Additional(out[ms[k]]);
      assert out[ms[k]] in out;
      AboveNothing(out, host, k);
    }
    if AddedFor(out, ParseHost(host).1) && !PortTier(out, host) {
      var e :| e in out && Additional(e) && Lower(e.route.domain) == ParseHost(host).1;
      var j :| 0 <= j < |out| && out[j] == e;
      AddedIsTop(out, host, j);
    }
  }

  lemma AboveNothing(out: seq<Emitted>, host: string, k: nat)
    requires k < |Matching(RoutesIn(out), host)|
    requires var t := RouteTier(out[Matching(RoutesIn(out), host)[k]].route, host); t.Some? ==> t != Some(PortExact)
    ensures RouteTier(out[Matching(RoutesIn(out), host)[k]].route, host).Some? && !PortTier(out, host)
  {
    var routes := RoutesIn(out);
    if PortTier(out, host) {
      var e :| e in out && RouteTier(e.route, host) == Some(PortExact);
      var j :| 0 <= j < |out| && out[j] == e;
      TopTierIsHighest(routes, HostTest(host), k, j);
    } else {
      TopTierIsHighest(routes, HostTest(host), k, Matching(routes, host)[k]);
    }
  }

  lemma AddedIsTop(out: seq<Emitted>, host: string, j: nat)
    requires j < |out| && Additional(out[j]) && RouteTier(out[j].route, host) == Some(Exact) && !PortTier(out, host)
    ensures AdditionInTop(out, host)
  {
    var routes := RoutesIn(out);
    var ms := Matching(routes, host);
    TopTierNonEmpty(routes, HostTest(host), j);
    TopTierIsHighest(routes, HostTest(host), 0, j);
    assert out[ms[0]] in out;
    var k :| 0 <= k < |ms| && ms[k] == j;
  }

  /******* The exact condition *******/

  lemma AdditionsAreBare(creds: seq<Credential>, servers: seq<McpServer>, webSearch: Option<string>, builtins: seq<Builtin>)
    requires BareServers(servers)
    ensures BareAdditions(Compiled(creds, servers, webSearch, builtins))
  {
    var base := Base(creds, webSearch, builtins);
    var added := ServersAdd(creds, base, servers);
    forall e | e in Compiled(creds, servers, webSearch, builtins) && Additional(e) ensures BareDomain(Lower(e.route.domain)) {
      MemberOf(creds, servers, webSearch, builtins, added, e);
      if e in added {
      } else {
        BuiltinsAreNotAdditional(Acc([], CredentialDomains(creds)), builtins);
        WebSearchIsBare(webSearch);
      }
    }
  }

  lemma PortRouteOrigin(
      creds: seq<Credential>, servers: seq<McpServer>, webSearch: Option<string>, builtins: seq<Builtin>, host: string, e: Emitted)
    requires BareServers(servers) && RouteTier(e.route, host) == Some(PortExact)
    ensures e in Compiled(creds, servers, webSearch, builtins)
            <==> e in TakenFirst(creds, builtins).out || e in CredentialRoutes(creds, false) || e in CredentialRoutes(creds, true)
  {
    var added := ServersAdd(creds, Base(creds, webSearch, builtins), servers);
    AdditionsAreBare(creds, servers, webSearch, builtins);
    MemberOf(creds, servers, webSearch, builtins, added, e);
  }

  /** Routes on host and port come from builtins, credentials and clusters alone. */
  lemma PortTierIff(
      creds: seq<Credential>, servers: seq<McpServer>, webSearch: Option<string>, builtins: seq<Builtin>, host: string)
    requires BareServers(servers)
    ensures PortTier(Compiled(creds, servers, webSearch, builtins), host) <==> PortRouted(creds, builtins, host)
  {
    forall e: Emitted | RouteTier(e.route, host) == Some(PortExact)
      ensures e in Compiled(creds, servers, webSearch, builtins)
              <==> e in TakenFirst(creds, builtins).out || e in CredentialRoutes(creds, false) || e in CredentialRoutes(creds, true)
    {
      PortRouteOrigin(creds, servers, webSearch, builtins, host, e);
    }
  }

  ghost predicate Shadowed(creds: seq<Credential>, servers: seq<McpServer>, webSearch: Option<string>, builtins: seq<Builtin>, host: string, c: nat)
    requires c < |creds|
  {
    && Lower(creds[c].domain) == "." + ParseHost(host).1
    && AdditionOn(creds, servers, webSearch, builtins, ParseHost(host).1)
    && !PortRouted(creds, builtins, host)
  }

  /**
   The exact condition on the inputs.  For a host that a credential matches, the proxy chooses
   among web-search and MCP routes if and only if the host is the bare apex of that
   credential's leading-dot domain, web search or a server asks for a route on it that nothing
   covers, and no route names the host with its port.
   */
  lemma ShadowedIff(
      creds: seq<Credential>, servers: seq<McpServer>, webSearch: Option<string>, builtins: seq<Builtin>, host: string, c: nat)
    requires BareServers(servers) && c < |creds| && CredentialMatches(creds[c], host)
    ensures var g := Generate(creds, servers, webSearch, builtins);
            g.Ok? ==> (AdditionInTop(g.value, host) <==> Shadowed(creds, servers, webSearch, builtins, host, c))
  {
    if Generate(creds, servers, webSearch, builtins).Ok? {
      var out := Compiled(creds, servers, webSearch, builtins);
      AdditionsAreBare(creds, servers, webSearch, builtins);
      TopTierIff(out, host);
      PortTierIff(creds, servers, webSearch, builtins, host);
      AdditionIff(creds, servers, webSearch, builtins, ParseHost(host).1);
      if AdditionInTop(out, host) {
        GenerateIsWellGenerated(creds, servers, webSearch, builtins);
        AddedAtApex(out, creds, host, c);
      }
    }
  }

  lemma AddedAtApex(out: seq<Emitted>, creds: seq<Credential>, host: string, c: nat)
    requires WellGenerated(out, creds) && AddedFor(out, ParseHost(host).1) && !PortTier(out, host)
    requires c < |creds| && CredentialMatches(creds[c], host)
    ensures Lower(creds[c].domain) == "." + ParseHost(host).1
  {
    var (hostLower, hostname) := ParseHost(host);
    var e :| e in out && Additional(e) && Lower(e.route.domain) == hostname;
    var own := Emitted(OwnRoute(creds[c]), FromCredential);
    assert own in out && RouteTier(own.route, host) != Some(PortExact);
    assert Lower(creds[c].domain) in CredentialDomains(creds);
    UncoveredMatchIsApex(Lower(creds[c].domain), hostLower, hostname, CredentialDomains(creds));
  }

  /**
   What that means for requests: where the condition fails no request on the host goes to an
   added route; where it holds none goes to a credential's own route, on any path.
   */
  lemma ShadowedRequests(
      creds: seq<Credential>, servers: seq<McpServer>, webSearch: Option<string>, builtins: seq<Builtin>, host: string, path: string, c: nat)
    requires BareServers(servers) && c < |creds| && CredentialMatches(creds[c], host)
    ensures var g := Generate(creds, servers, webSearch, builtins);
            g.Ok? && Select(RoutesIn(g.value), host, path).Some? ==>
              var chosen := g.value[Select(RoutesIn(g.value), host, path).value];
              && (Shadowed(creds, servers, webSearch, builtins, host, c) ==> chosen.origin != FromCredential)
              && (!Shadowed(creds, servers, webSearch, builtins, host, c) ==> !Additional(chosen))
  {
    var g := Generate(creds, servers, webSearch, builtins);
    ShadowedIff(creds, servers, webSearch, builtins, host, c);
    if g.Ok? && Select(RoutesIn(g.value), host, path).Some? {
      var out := g.value;
      var i := Select(RoutesIn(out), host, path).value;
      if Shadowed(creds, servers, webSearch, builtins, host, c) {
        GenerateIsWellGenerated(creds, servers, webSearch, builtins);
        AdditionsAreBare(creds, servers, webSearch, builtins);
        TopTierIff(out, host);
        OnlyAdditionsAtApex(out, creds, host, path);
      } else {
        var k :| 0 <= k < |Matching(RoutesIn(out), host)| && Matching(RoutesIn(out), host)[k] == i;
      }
    }
  }

  lemma OnlyAdditionsAtApex(out: seq<Emitted>, creds: seq<Credential>, host: string, path: string)
    requires WellGenerated(out, creds) && BareAdditions(out) && AddedFor(out, ParseHost(host).1) && !PortTier(out, host)
    requires Select(RoutesIn(out), host, path).Some?
    ensures out[Select(RoutesIn(out), host, path).value].origin != FromCredential
  {
    var e :| e in out && Additional(e) && Lower(e.route.domain) == ParseHost(host).1;
    var j :| 0 <= j < |out| && out[j] == e;
    SelectedIsTop(out, host, path, j);
    var i := Select(RoutesIn(out), host, path).value;
    assert out[i] in out;
    assert RouteTier(out[i].route, host) == Some(Exact);
  }

  /******* An instance *******/

  const APEX_CREDENTIAL :=
    Credential("c", Bearer, ".x.io", "", "", "", map[], [], "", "", "", "", "", "", "", "", [], None)
  const APEX_SERVER := McpServer("m", "https://x.io/mcp", "x.io", "")

  lemma ApexWanted()
    ensures BareServers([APEX_SERVER]) && FirstMissing([APEX_CREDENTIAL], [APEX_SERVER]).None?
    ensures ServerWants([APEX_CREDENTIAL], [APEX_SERVER], None, [], "x.io")
  {
    var creds, servers := [APEX_CREDENTIAL], [APEX_SERVER];
    ApexNames();
    assert servers[0] == APEX_SERVER;
    assert CredentialDomains(creds) == {".x.io"} by {
      assert creds[0] == APEX_CREDENTIAL;
    }
    assert !DomainCovered("x.io", {".x.io"});
  }

  lemma ApexInputs()
    ensures CredentialMatches(APEX_CREDENTIAL, "x.io") && HasOwnRoute(APEX_CREDENTIAL)
    ensures Shadowed([APEX_CREDENTIAL], [APEX_SERVER], None, [], "x.io", 0)
  {
    ApexNames();
    ApexWanted();
    assert [APEX_CREDENTIAL][0] == APEX_CREDENTIAL;
  }

  /** A credential for ".x.io" and a server on "x.io": no request to x.io gets the credential. */
  lemma ApexInstance(path: string)
    ensures var g := Generate([APEX_CREDENTIAL], [APEX_SERVER], None, []);
            && g.Ok? && CredentialMatches(APEX_CREDENTIAL, "x.io") && AdditionInTop(g.value, "x.io")
            && (var r := Select(RoutesIn(g.value), "x.io", path); r.Some? ==> g.value[r.value].origin != FromCredential)
  {
    ApexWanted();
    ApexInputs();
    ShadowedIff([APEX_CREDENTIAL], [APEX_SERVER], None, [], "x.io", 0);
    ShadowedRequests([APEX_CREDENTIAL], [APEX_SERVER], None, [], "x.io", path, 0);
  }

  lemma ApexNames()
    ensures Lower("x.io") == "x.io" && Lower(".x.io") == ".x.io" && ".x.io" == "." + "x.io"
    ensures ParseHost("x.io") == ("x.io", "x.io") && BareDomain("x.io")
    ensures !HasSuffix("x.io", ".x.io") && ".x.io"[1..] == "x.io"
  {
    NoColonIsBare("x.io");
  }
}
