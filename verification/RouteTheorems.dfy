/** What the compiled route list means to the proxy that loads it. */
module RouteTheorems {
  import opened Basics
  import opened Strings
  import opened Routes
  import opened Selection
  import opened ProxyMatcher
  import opened RouteCompiler
  import StableSort

  /******* The sort order *******/

  lemma RouteOrderTotal(a: Route, b: Route, c: Route)
    ensures !RouteLess(a, a)
    ensures RouteLess(a, b) && RouteLess(b, c) ==> RouteLess(a, c)
    ensures RouteLess(a, c) ==> RouteLess(a, b) || RouteLess(b, c)
    ensures !RouteLess(a, b) && !RouteLess(b, a) ==> a.domain == b.domain
  {
    LessTotal(a.injector, a.injector);
    LessTotal(a.domain, b.domain);
    LessTotal(b.domain, c.domain);
    LessTotal(a.domain, c.domain);
    LessTotal(a.injector, b.injector);
    LessTotal(b.injector, c.injector);
    LessTotal(a.injector, c.injector);
    if Less(a.domain, b.domain) && Less(b.domain, c.domain) { LessTransitive(a.domain, b.domain, c.domain); }
    if Less(a.injector, b.injector) && Less(b.injector, c.injector) { LessTransitive(a.injector, b.injector, c.injector); }
    if Less(a.domain, c.domain) && Less(c.domain, b.domain) { LessTransitive(a.domain, c.domain, b.domain); }
    if Less(a.injector, c.injector) && Less(c.injector, b.injector) { LessTransitive(a.injector, c.injector, b.injector); }
  }

  lemma EmittedOrderIsStrictWeak()
    ensures StableSort.StrictWeak(EmittedLess())
    ensures forall a, b :: StableSort.Tied(EmittedLess(), a, b) ==> a.route.domain == b.route.domain
  {
    forall a: Emitted, b: Emitted, c: Emitted
      ensures !RouteLess(a.route, a.route)
      ensures RouteLess(a.route, b.route) && RouteLess(b.route, c.route) ==> RouteLess(a.route, c.route)
      ensures RouteLess(a.route, c.route) ==> RouteLess(a.route, b.route) || RouteLess(b.route, c.route)
      ensures !RouteLess(a.route, b.route) && !RouteLess(b.route, a.route) ==> a.route.domain == b.route.domain
    {
      RouteOrderTotal(a.route, b.route, c.route);
    }
  }

  /** Sorting neither drops nor invents routes. */
  lemma GeneratedMembers(
      creds: seq<Credential>, servers: seq<McpServer>, webSearch: Option<string>, builtins: seq<Builtin>, e: Emitted)
    ensures e in Compiled(creds, servers, webSearch, builtins) <==>
            e in ExactRoutes(creds, servers, webSearch, builtins) || e in CredentialRoutes(creds, true)
  {
    EmittedOrderIsStrictWeak();
    var (exact, suffix) := (ExactRoutes(creds, servers, webSearch, builtins), CredentialRoutes(creds, true));
    StableSort.SortKeeps(EmittedLess(), exact);
    StableSort.SortKeeps(EmittedLess(), suffix);
    assert e in exact <==> e in multiset(StableSort.Sort(EmittedLess(), exact));
    assert e in suffix <==> e in multiset(StableSort.Sort(EmittedLess(), suffix));
  }

  /******* MCP and web-search routes stay off credential domains *******/

  /** Routes the compiler adds on its own, beside credentials and builtins. */
  predicate Additional(e: Emitted) {
    e.origin == FromWebSearch || e.origin == FromMcp || e.origin == FromMcpCredential
  }

  ghost predicate StaysClear(acc: Acc, domains: set<string>) {
    && domains <= acc.covered
    && (forall e :: e in acc.out ==> e.origin != FromCredential)
    && (forall e :: e in acc.out && Additional(e) ==> !DomainCovered(Lower(e.route.domain), domains))
  }

  lemma AddKeepsClear(acc: Acc, route: Route, origin: Origin, domains: set<string>)
    requires StaysClear(acc, domains) && origin != FromCredential
    ensures StaysClear(AddUnlessCovered(acc, route, origin), domains)
  {
  }

  lemma {:induction false} BuiltinsKeepClear(acc: Acc, builtins: seq<Builtin>, domains: set<string>)
    requires StaysClear(acc, domains)
    ensures StaysClear(AddBuiltins(acc, builtins), domains)
  {
    if builtins != [] {
      BuiltinsKeepClear(acc, builtins[..|builtins| - 1], domains);
    }
  }

  lemma {:induction false} ServersKeepClear(
      creds: seq<Credential>, withCredential: bool, acc: Acc, servers: seq<McpServer>, domains: set<string>)
    requires StaysClear(acc, domains)
    ensures StaysClear(AddServers(creds, withCredential, acc, servers), domains)
  {
    if servers != [] {
      var last := |servers| - 1;
      ServersKeepClear(creds, withCredential, acc, servers[..last], domains);
      AddKeepsClear(AddServers(creds, withCredential, acc, servers[..last]), McpRoute(creds, servers[last]),
                    McpOrigin(withCredential), domains);
    }
  }

  predicate HasOwnRoute(cred: Credential) {
    cred.kind != Kubernetes && cred.domain != ""
  }

  /** What the credentials bring one after the other. */
  function Joined(creds: seq<Credential>, brings: Credential -> seq<Emitted>): seq<Emitted> {
    if creds == [] then [] else Joined(creds[..|creds| - 1], brings) + brings(creds[|creds| - 1])
  }

  function PartBrought(suffix: bool): Credential -> seq<Emitted> {
    (cred: Credential) => Part(RoutesOf(cred), suffix)
  }

  lemma {:induction false} RoutesAreJoined(creds: seq<Credential>, suffix: bool)
    ensures CredentialRoutes(creds, suffix) == Joined(creds, PartBrought(suffix))
  {
    if creds != [] {
      RoutesAreJoined(creds[..|creds| - 1], suffix);
    }
  }

  lemma {:induction false} JoinedFrom(creds: seq<Credential>, brings: Credential -> seq<Emitted>, e: Emitted) returns (c: nat)
    requires e in Joined(creds, brings)
    ensures c < |creds| && e in brings(creds[c])
  {
    var last := |creds| - 1;
    if e in Joined(creds[..last], brings) {
      c := JoinedFrom(creds[..last], brings, e);
    } else {
      c := last;
    }
  }

  lemma {:induction false} JoinedHas(creds: seq<Credential>, brings: Credential -> seq<Emitted>, c: nat, e: Emitted)
    requires c < |creds| && e in brings(creds[c])
    ensures e in Joined(creds, brings)
  {
    var last := |creds| - 1;
    if c < last {
      JoinedHas(creds[..last], brings, c, e);
    }
  }

  lemma BroughtBySome(creds: seq<Credential>, suffix: bool, e: Emitted) returns (c: nat)
    requires e in CredentialRoutes(creds, suffix)
    ensures c < |creds| && e in RoutesOf(creds[c])
  {
    RoutesAreJoined(creds, suffix);
    c := JoinedFrom(creds, PartBrought(suffix), e);
  }

  lemma BroughtBy(creds: seq<Credential>, c: nat, suffix: bool, e: Emitted)
    requires c < |creds| && e in RoutesOf(creds[c]) && IsSuffixRoute(e) == suffix
    ensures e in CredentialRoutes(creds, suffix)
  {
    RoutesAreJoined(creds, suffix);
    JoinedHas(creds, PartBrought(suffix), c, e);
  }

  lemma {:induction false} OwnRouteEmitted(creds: seq<Credential>, c: nat)
    requires c < |creds| && HasOwnRoute(creds[c])
    ensures Emitted(OwnRoute(creds[c]), FromCredential) in CredentialRoutes(creds, HasPrefix(creds[c].domain, "."))
  {
    var last := |creds| - 1;
    if c == last {
      assert RoutesOf(creds[c])[0] == Emitted(OwnRoute(creds[c]), FromCredential);
    } else {
      OwnRouteEmitted(creds[..last], c);
    }
  }

  lemma {:induction false} CredentialRoutesOrigin(creds: seq<Credential>, suffix: bool, e: Emitted)
    requires e in CredentialRoutes(creds, suffix)
    ensures !Additional(e)
    ensures e.origin == FromCredential ==> Lower(e.route.domain) in CredentialDomains(creds)
  {
    var last := |creds| - 1;
    if e in CredentialRoutes(creds[..last], suffix) {
      CredentialRoutesOrigin(creds[..last], suffix, e);
      if e.origin == FromCredential {
        var i :| 0 <= i < last && Lower(creds[..last][i].domain) == Lower(e.route.domain);
        assert creds[i] == creds[..last][i];
      }
    } else {
      assert e in RoutesOf(creds[last]);
    }
  }

  lemma GeneratedFacts(
      creds: seq<Credential>, servers: seq<McpServer>, webSearch: Option<string>, builtins: seq<Builtin>, e: Emitted)
    requires e in Compiled(creds, servers, webSearch, builtins)
    ensures Additional(e) ==> !DomainCovered(Lower(e.route.domain), CredentialDomains(creds))
    ensures e.origin == FromCredential ==> Lower(e.route.domain) in CredentialDomains(creds)
  {
    GeneratedMembers(creds, servers, webSearch, builtins, e);
    var domains := CredentialDomains(creds);
    var built := AddBuiltins(Acc([], domains), builtins);
    BuiltinsKeepClear(Acc([], domains), builtins, domains);
    var base := Base(creds, webSearch, builtins);
    if WebSearchRoute(webSearch).Some? {
      AddKeepsClear(built, WebSearchRoute(webSearch).value, FromWebSearch, domains);
    }
    assert StaysClear(base, domains);
    ServersKeepClear(creds, true, base, servers, domains);
    var mid := AddServers(creds, true, base, servers);
    ServersKeepClear(creds, false, mid, servers, domains);
    if e in CredentialRoutes(creds, false) {
      CredentialRoutesOrigin(creds, false, e);
    } else if e in CredentialRoutes(creds, true) {
      CredentialRoutesOrigin(creds, true, e);
    }
  }

  /** A lower-case domain the proxy compares with the bare host name. */
  predicate BareDomain(domain: string) {
    !HasPrefix(domain, ".") && !IsPortForm(domain)
  }

  predicate CredentialMatches(cred: Credential, host: string) {
    var (hostLower, hostname) := ParseHost(host);
    HasOwnRoute(cred) && DomainMatches(Lower(cred.domain), hostLower, hostname)
  }

  lemma SelectedIsTop(es: seq<Emitted>, host: string, path: string, j: nat)
    requires Select(RoutesIn(es), host, path).Some? && j < |es|
    ensures var i := Select(RoutesIn(es), host, path).value;
            var tier := RouteTier(es[i].route, host);
            && tier.Some?
            && (RouteTier(es[j].route, host) == Some(PortExact) ==> tier == Some(PortExact))
            && (RouteTier(es[j].route, host) == Some(Exact) ==> tier != Some(Suffix))
  {
    var routes := RoutesIn(es);
    var i := Select(routes, host, path).value;
    var ms := Matching(routes, host);
    var k :| 0 <= k < |ms| && ms[k] == i;
    TopTierIsHighest(routes, HostTest(host), k, j);
  }

  /** A host that a covered domain matches, and that is not covered itself, is an apex. */
  lemma UncoveredMatchIsApex(theirs: string, hostLower: string, hostname: string, domains: set<string>)
    requires theirs in domains && !DomainCovered(hostname, domains)
    requires DomainMatches(theirs, hostLower, hostname)
    requires HasPrefix(theirs, ".") || !IsPortForm(theirs)
    ensures theirs == "." + hostname
  {
    assert HasPrefix(theirs, ".") && !HasSuffix(hostname, theirs);
    assert theirs == [theirs[0]] + theirs[1..];
  }

  /** An additional route on a bare domain is chosen only in the middle tier, by its own host. */
  lemma ChosenBareRoute(es: seq<Emitted>, host: string, path: string, j: nat)
    requires Select(RoutesIn(es), host, path).Some? && j < |es|
    requires BareDomain(Lower(es[Select(RoutesIn(es), host, path).value].route.domain))
    ensures ParseHost(host).1 == Lower(es[Select(RoutesIn(es), host, path).value].route.domain)
    ensures RouteTier(es[j].route, host) != Some(PortExact)
  {
    SelectedIsTop(es, host, path, j);
  }

  /** The facts about a generated list that the proxy's choice depends on. */
  ghost predicate WellGenerated(out: seq<Emitted>, creds: seq<Credential>) {
    var domains := CredentialDomains(creds);
    && (forall e :: e in out && Additional(e) ==> !DomainCovered(Lower(e.route.domain), domains))
    && (forall e :: e in out && e.origin == FromCredential ==> Lower(e.route.domain) in domains)
    && (forall c :: 0 <= c < |creds| && HasOwnRoute(creds[c]) ==> Emitted(OwnRoute(creds[c]), FromCredential) in out)
  }

  lemma GenerateIsWellGenerated(
      creds: seq<Credential>, servers: seq<McpServer>, webSearch: Option<string>, builtins: seq<Builtin>)
    ensures WellGenerated(Compiled(creds, servers, webSearch, builtins), creds)
  {
    var out := Compiled(creds, servers, webSearch, builtins);
    forall e | e in out
      ensures Additional(e) ==> !DomainCovered(Lower(e.route.domain), CredentialDomains(creds))
      ensures e.origin == FromCredential ==> Lower(e.route.domain) in CredentialDomains(creds)
    {
      GeneratedFacts(creds, servers, webSearch, builtins, e);
    }
    forall c | 0 <= c < |creds| && HasOwnRoute(creds[c])
      ensures Emitted(OwnRoute(creds[c]), FromCredential) in out
    {
      OwnRouteEmitted(creds, c);
      GeneratedMembers(creds, servers, webSearch, builtins, Emitted(OwnRoute(creds[c]), FromCredential));
    }
  }

  /** The proxy sends this request to a web-search or MCP route on a bare domain. */
  predicate SentToBareAddition(out: seq<Emitted>, host: string, path: string) {
    var r := Select(RoutesIn(out), host, path);
    r.Some? && Additional(out[r.value]) && BareDomain(Lower(out[r.value].route.domain))
  }

  lemma ShadowedOnlyAtApex(out: seq<Emitted>, creds: seq<Credential>, host: string, path: string, c: nat)
    requires WellGenerated(out, creds) && SentToBareAddition(out, host, path)
    requires c < |creds| && CredentialMatches(creds[c], host)
    ensures Lower(creds[c].domain) == "." + ParseHost(host).1
  {
    var i := Select(RoutesIn(out), host, path).value;
    var own := Emitted(OwnRoute(creds[c]), FromCredential);
    var j :| 0 <= j < |out| && out[j] == own;
    ChosenBareRoute(out, host, path, j);
    assert out[i] in out;
    var (hostLower, hostname) := ParseHost(host);
    UncoveredMatchIsApex(Lower(creds[c].domain), hostLower, hostname, CredentialDomains(creds));
  }

  /**
   End to end: if the proxy sends a request to a web-search or MCP route on a bare domain
   although a credential's domain matches the host, then the host is the bare apex of that
   credential's leading-dot domain.  In every other case the credential is not shadowed.
   */
  lemma CredentialsAreNotShadowed(
      creds: seq<Credential>, servers: seq<McpServer>, webSearch: Option<string>, builtins: seq<Builtin>,
      host: string, path: string, c: nat)
    requires c < |creds| && CredentialMatches(creds[c], host)
    ensures var out := Generate(creds, servers, webSearch, builtins);
            out.Ok? && SentToBareAddition(out.value, host, path) ==> Lower(creds[c].domain) == "." + ParseHost(host).1
  {
    var out := Generate(creds, servers, webSearch, builtins);
    if out.Ok? && SentToBareAddition(out.value, host, path) {
      GenerateIsWellGenerated(creds, servers, webSearch, builtins);
      ShadowedOnlyAtApex(out.value, creds, host, path, c);
    }
  }

  lemma ParseBareHost(d: string)
    requires Lower(d) == d && !IsPortForm(d)
    ensures ParseHost(d) == (d, d)
  {
  }

  lemma BareRouteIsExact(route: Route, host: string)
    requires Lower(route.domain) == host == Lower(host) && BareDomain(host)
    ensures RouteTier(route, host) == Some(Exact)
  {
    ParseBareHost(host);
  }

  lemma ApexTaken(out: seq<Emitted>, e: Emitted) returns (j: nat)
    requires e in out && BareDomain(Lower(e.route.domain))
    ensures j < |out| && out[j] == e && RouteTier(out[j].route, Lower(e.route.domain)) == Some(Exact)
    ensures Select(RoutesIn(out), Lower(e.route.domain), "").Some?
  {
    var host := Lower(e.route.domain);
    LowerIdempotent(e.route.domain);
    BareRouteIsExact(e.route, host);
    j :| 0 <= j < |out| && out[j] == e;
    TopTierNonEmpty(RoutesIn(out), HostTest(host), j);
    assert Matching(RoutesIn(out), host) != [];
  }

  lemma ApexMatches(cred: Credential, host: string)
    requires HasOwnRoute(cred) && BareDomain(host) && Lower(host) == host && Lower(cred.domain) == "." + host
    ensures CredentialMatches(cred, host)
  {
    ParseBareHost(host);
    assert ("." + host)[1..] == host;
  }

  lemma ApexReachesNoCredential(out: seq<Emitted>, creds: seq<Credential>, e: Emitted, path: string, c: nat)
    requires WellGenerated(out, creds) && e in out && Additional(e) && BareDomain(Lower(e.route.domain))
    requires c < |creds| && HasOwnRoute(creds[c]) && Lower(creds[c].domain) == "." + Lower(e.route.domain)
    ensures var host := Lower(e.route.domain);
            && CredentialMatches(creds[c], host)
            && Select(RoutesIn(out), host, "").Some?
            && (var r := Select(RoutesIn(out), host, path); r.Some? ==> out[r.value].origin != FromCredential)
  {
    var host := Lower(e.route.domain);
    LowerIdempotent(e.route.domain);
    ApexMatches(creds[c], host);
    var j := ApexTaken(out, e);
    var r := Select(RoutesIn(out), host, path);
    if r.Some? {
      SelectedIsTop(out, host, path, j);
      UncoveredHostTakesNoCredential(out, creds, e, r.value);
    }
  }
  lemma UncoveredHostTakesNoCredential(out: seq<Emitted>, creds: seq<Credential>, e: Emitted, i: nat)
    requires WellGenerated(out, creds) && e in out && Additional(e) && BareDomain(Lower(e.route.domain)) && i < |out|
    requires RouteTier(out[i].route, Lower(e.route.domain)) in {Some(PortExact), Some(Exact)}
    ensures out[i].origin != FromCredential
  {
    var host := Lower(e.route.domain);
    LowerIdempotent(e.route.domain);
    ParseBareHost(host);
    assert out[i] in out;
  }

  /**
   The exception is real on all inputs: whenever a web-search or MCP route on a bare domain
   is emitted beside a credential for the suffix of that same domain, requests to the
   domain itself never reach a credential's route.
   */
  lemma ApexIsShadowed(
      creds: seq<Credential>, servers: seq<McpServer>, webSearch: Option<string>, builtins: seq<Builtin>,
      e: Emitted, path: string, c: nat)
    requires e in Compiled(creds, servers, webSearch, builtins) && Additional(e)
    requires BareDomain(Lower(e.route.domain))
    requires c < |creds| && HasOwnRoute(creds[c]) && Lower(creds[c].domain) == "." + Lower(e.route.domain)
    ensures var out := Compiled(creds, servers, webSearch, builtins);
            var host := Lower(e.route.domain);
            && CredentialMatches(creds[c], host)
            && Select(RoutesIn(out), host, "").Some?
            && (var r := Select(RoutesIn(out), host, path); r.Some? ==> out[r.value].origin != FromCredential)
  {
    GenerateIsWellGenerated(creds, servers, webSearch, builtins);
    ApexReachesNoCredential(Compiled(creds, servers, webSearch, builtins), creds, e, path, c);
  }

  lemma LowerKeepsDot(s: string)
    ensures HasPrefix(Lower(s), ".") <==> HasPrefix(s, ".")
  {
    if s != "" {
      assert Lower(s)[..1] == [LowerChar(s[0])] && s[..1] == [s[0]];
    }
  }

  /** Suffix routes of credentials come after everything else. */
  lemma {:induction false} ExactCredentialsHaveNoDot(creds: seq<Credential>, e: Emitted)
    requires e in CredentialRoutes(creds, false) && e.origin == FromCredential
    ensures !HasPrefix(Lower(e.route.domain), ".")
  {
    var last := |creds| - 1;
    if e in CredentialRoutes(creds[..last], false) {
      ExactCredentialsHaveNoDot(creds[..last], e);
    } else {
      LowerKeepsDot(e.route.domain);
    }
  }

  lemma ExactPartHasNoSuffixCredential(
      creds: seq<Credential>, servers: seq<McpServer>, webSearch: Option<string>, builtins: seq<Builtin>, e: Emitted)
    requires e in ExactRoutes(creds, servers, webSearch, builtins) && e.origin == FromCredential
    ensures !HasPrefix(Lower(e.route.domain), ".")
  {
    var domains := CredentialDomains(creds);
    BuiltinsKeepClear(Acc([], domains), builtins, domains);
    var base := Base(creds, webSearch, builtins);
    assert StaysClear(base, domains);
    ServersKeepClear(creds, true, base, servers, domains);
    ServersKeepClear(creds, false, AddServers(creds, true, base, servers), servers, domains);
    ExactCredentialsHaveNoDot(creds, e);
  }

  ghost predicate OnlyOpenSuffixes(routes: seq<Route>, host: string) {
    forall i :: 0 <= i < |routes| ==>
      RouteTier(routes[i], host).None? || (RouteTier(routes[i], host) == Some(Suffix) && routes[i].allowedPaths == [])
  }

  /** Where only unrestricted suffix routes match, the first of them in the list wins. */
  lemma FirstSuffixWins(routes: seq<Route>, host: string, path: string, j: nat)
    requires j < |routes| && RouteTier(routes[j], host).Some? && OnlyOpenSuffixes(routes, host)
    ensures var r := Select(routes, host, path);
            && r.Some? && RouteTier(routes[r.value], host) == Some(Suffix)
            && forall i :: 0 <= i < |routes| && RouteTier(routes[i], host).Some? ==> r.value <= i
  {
    var test := HostTest(host);
    OneTier(routes, test, Suffix, j);
    var ms := Matching(routes, host);
    UnrestrictedChoosesFirst(routes, ms, path == "", EntryTest(path));
    TopTierAscends(routes, test);
    forall i | 0 <= i < |routes| && RouteTier(routes[i], host).Some? ensures ms[0] <= i {
      assert test(routes[i]) == Some(Suffix);
      var k :| 0 <= k < |ms| && ms[k] == i;
    }
  }

  /** Where only one tier applies, its routes are the ones chosen from. */
  lemma OneTier(routes: seq<Route>, test: Route -> Option<Tier>, tier: Tier, j: nat)
    requires j < |routes| && test(routes[j]) == Some(tier)
    requires forall i :: 0 <= i < |routes| ==> test(routes[i]).None? || test(routes[i]) == Some(tier)
    ensures TopTier(routes, test) == TierIndices(routes, test, tier, |routes|) != []
  {
    TopTierNonEmpty(routes, test, j);
    TopTierIsHighest(routes, test, 0, j);
  }

  /**
   Why MCP hosts must not begin with a dot: they stand in the exact part of the list.  On a
   host that only unrestricted suffix routes match, such a server beside it makes the proxy
   choose from that part, ahead of every credential's suffix route however much longer.
   */
  lemma DottedServerShadows(
      creds: seq<Credential>, servers: seq<McpServer>, webSearch: Option<string>, builtins: seq<Builtin>,
      e: Emitted, host: string, path: string)
    requires e in ExactRoutes(creds, servers, webSearch, builtins) && Additional(e)
    requires RouteTier(e.route, host) == Some(Suffix)
    requires forall x :: x in Compiled(creds, servers, webSearch, builtins) ==>
               RouteTier(x.route, host).None? || (RouteTier(x.route, host) == Some(Suffix) && x.route.allowedPaths == [])
    ensures var out := Compiled(creds, servers, webSearch, builtins);
            var r := Select(RoutesIn(out), host, path);
            && r.Some? && out[r.value].origin != FromCredential
            && out[r.value] in ExactRoutes(creds, servers, webSearch, builtins)
            && (forall i :: 0 <= i < |out| && out[i].origin == FromCredential && RouteTier(out[i].route, host).Some? ==> r.value < i)
  {
    var out := Compiled(creds, servers, webSearch, builtins);
    var n, j := ExactFirst(creds, servers, webSearch, builtins, e);
    OpenSuffixes(out, host);
    forall i | 0 <= i < n && out[i].origin == FromCredential ensures !HasPrefix(Lower(out[i].route.domain), ".") {
      ExactPartHasNoSuffixCredential(creds, servers, webSearch, builtins, out[i]);
    }
    ChosenBeforeCredentials(out, host, path, n, j);
  }

  lemma ChosenBeforeCredentials(out: seq<Emitted>, host: string, path: string, n: nat, j: nat)
    requires j < n <= |out| && RouteTier(out[j].route, host).Some? && OnlyOpenSuffixes(RoutesIn(out), host)
    requires forall i :: 0 <= i < n && out[i].origin == FromCredential ==> !HasPrefix(Lower(out[i].route.domain), ".")
    ensures var r := Select(RoutesIn(out), host, path);
            && r.Some? && r.value < n && out[r.value].origin != FromCredential
            && forall i :: 0 <= i < |out| && out[i].origin == FromCredential && RouteTier(out[i].route, host).Some? ==> r.value < i
  {
    FirstSuffixWins(RoutesIn(out), host, path, j);
    SuffixHasDot(out[Select(RoutesIn(out), host, path).value].route, host);
  }

  lemma OpenSuffixes(out: seq<Emitted>, host: string)
    requires forall x :: x in out ==>
               RouteTier(x.route, host).None? || (RouteTier(x.route, host) == Some(Suffix) && x.route.allowedPaths == [])
    ensures OnlyOpenSuffixes(RoutesIn(out), host)
  {
    assert forall i :: 0 <= i < |out| ==> out[i] in out;
  }

  /** The exact part comes first: the list up to n holds it, and e stands in it. */
  lemma ExactFirst(
      creds: seq<Credential>, servers: seq<McpServer>, webSearch: Option<string>, builtins: seq<Builtin>, e: Emitted)
    returns (n: nat, j: nat)
    requires e in ExactRoutes(creds, servers, webSearch, builtins)
    ensures var out := Compiled(creds, servers, webSearch, builtins);
            && j < n <= |out| && out[j] == e
            && forall i :: 0 <= i < n ==> out[i] in ExactRoutes(creds, servers, webSearch, builtins)
  {
    var unsorted := ExactRoutes(creds, servers, webSearch, builtins);
    var exact := StableSort.Sort(EmittedLess(), unsorted);
    SortKeepsMembers(unsorted);
    n := |exact|;
    j :| 0 <= j < |exact| && exact[j] == e;
    assert forall i :: 0 <= i < n ==> exact[i] in exact;
  }

  lemma SortKeepsMembers(es: seq<Emitted>)
    ensures forall e :: e in StableSort.Sort(EmittedLess(), es) <==> e in es
  {
    EmittedOrderIsStrictWeak();
    StableSort.SortKeeps(EmittedLess(), es);
    assert forall e :: e in es <==> e in multiset(es);
    assert forall e :: e in StableSort.Sort(EmittedLess(), es) <==> e in multiset(StableSort.Sort(EmittedLess(), es));
  }

  lemma SuffixHasDot(route: Route, host: string)
    requires RouteTier(route, host) == Some(Suffix)
    ensures HasPrefix(Lower(route.domain), ".")
  {
  }
}
