/** The proxy's route selection: three tiers of domains, then the longest matching path entry. */
module ProxyMatcher {
  import opened Basics
  import opened Strings
  import opened PathClean
  import opened Routes
  import opened Selection

  /******* Path entries *******/

  predicate PathEntryMatches(path: string, entry: string) {
    var clean := Clean(path);
    var entryClean := Clean(entry);
    if HasSuffix(entry, "/") then HasPrefix(clean, entryClean + "/") || clean == entryClean
    else clean == entryClean
  }

  lemma RenderStart(segs: seq<string>)
    requires AllSegments(segs) && segs != []
    ensures |Render(segs)| > 1 && Render(segs)[0] == '/' && Render(segs)[1] != '/'
  {
    assert IsSegment(segs[0]);
    assert Render(segs) == "/" + segs[0] + Render(segs[1..]);
    assert Render(segs)[1] == segs[0][0] && segs[0][0] in segs[0];
  }

  lemma CleanStart(p: string)
    ensures Clean(p) != ""
    ensures Clean(p)[0] == '/' <==> Rooted(p)
    ensures Rooted(p) && Canonical(p) != [] ==> Clean(p) == Render(Canonical(p))
  {
    CanonicalGivesSegments(p);
    var segs := Canonical(p);
    if segs != [] {
      RenderStart(segs);
    }
  }

  lemma RootHasNoPrefix(segs: seq<string>)
    requires AllSegments(segs)
    ensures !HasPrefix(Render(segs), "//") && Render(segs) != "/"
  {
    if segs != [] {
      RenderStart(segs);
    }
  }

  lemma RootedEntryMatch(path: string, entry: string)
    requires Rooted(path) && Rooted(entry) && Canonical(entry) != []
    ensures var (p, e) := (Canonical(path), Canonical(entry));
            PathEntryMatches(path, entry) <==> if HasSuffix(entry, "/") then e <= p else e == p
  {
    var (p, e) := (Canonical(path), Canonical(entry));
    CleanStart(path);
    CleanStart(entry);
    CanonicalGivesSegments(path);
    CanonicalGivesSegments(entry);
    RootHasNoPrefix(e);
    if p == [] {
      assert Clean(path) == "/";
      assert |Render(e)| > 1;
    } else {
      RenderPrefix(p, e);
      if Render(p) == Render(e) {
        RenderInjective(p, e);
      }
      assert e <= p <==> e == p || (|e| < |p| && p[..|e|] == e);
    }
  }

  /**
   On rooted request paths an entry means exactly this, on canonical segments: a prefix when
   it ends with a slash, equality otherwise.  An entry that cleans to the root matches the
   root alone, and an entry that is not rooted matches nothing.
   */
  lemma PathEntryMeaning(path: string, entry: string)
    requires Rooted(path)
    ensures var (p, e) := (Canonical(path), Canonical(entry));
            PathEntryMatches(path, entry) <==>
              Rooted(entry) && (if HasSuffix(entry, "/") && e != [] then e <= p else e == p)
  {
    var (p, e) := (Canonical(path), Canonical(entry));
    CleanStart(path);
    CleanStart(entry);
    if Rooted(entry) && e != [] {
      RootedEntryMatch(path, entry);
    } else if Rooted(entry) {
      CanonicalGivesSegments(path);
      RootHasNoPrefix(p);
      assert Clean(entry) == "/" && "/" + "/" == "//";
    } else {
      assert (Clean(entry) + "/")[0] == Clean(entry)[0] != '/';
    }
  }

  /******* Requests *******/

  predicate PathAllowed(route: Route, path: string) {
    route.allowedPaths == [] ||
    exists i :: 0 <= i < |route.allowedPaths| && PathEntryMatches(path, route.allowedPaths[i])
  }

  predicate NeedsMITM(route: Route) {
    route.injector != "none" || |route.allowedPaths| > 0 || |route.defaultHeaders| > 0
  }

  /** Lower-cased host, and the same without its port. */
  function ParseHost(host: string): (string, string) {
    var lower := Lower(host);
    match SplitHostPort(lower)
    case Some((h, _)) => (lower, h)
    case None => (lower, lower)
  }

  predicate IsPortForm(domain: string) {
    SplitHostPort(domain).Some?
  }

  predicate DomainMatches(domain: string, hostLower: string, hostname: string) {
    if HasPrefix(domain, ".") then HasSuffix(hostname, domain) || hostname == domain[1..]
    else if IsPortForm(domain) then hostLower == domain
    else hostname == domain
  }

  /** The tier in which a route applies to a host, if it does. */
  function RouteTier(route: Route, host: string): Option<Tier> {
    var (hostLower, hostname) := ParseHost(host);
    var domain := Lower(route.domain);
    if !DomainMatches(domain, hostLower, hostname) then None
    else if HasPrefix(domain, ".") then Some(Suffix)
    else if SplitHostPort(domain).Some? then Some(PortExact)
    else Some(Exact)
  }

  function HostTest(host: string): Route -> Option<Tier> {
    route => RouteTier(route, host)
  }

  /** The routes of the highest tier that has any. */
  function Matching(routes: seq<Route>, host: string): (ms: seq<nat>)
    ensures IndicesOf(ms, routes)
  {
    TopTier(routes, HostTest(host))
  }

  function EntryTest(path: string): string -> bool {
    entry => PathEntryMatches(path, entry)
  }

  function Select(routes: seq<Route>, host: string, path: string): (r: Option<nat>)
    ensures r.Some? ==> r.value in Matching(routes, host) && r.value < |routes|
  {
    Choose(routes, Matching(routes, host), path == "", EntryTest(path))
  }

  /******* The loops of the proxy *******/

  method MatchingRoutes(routes: seq<Route>, host: string) returns (ms: seq<nat>)
    ensures ms == Matching(routes, host)
  {
    ms := TopTierRoutes(routes, HostTest(host));
  }

  method MatchRoute(routes: seq<Route>, host: string, path: string) returns (r: Option<nat>)
    ensures r == Select(routes, host, path)
  {
    var ms := MatchingRoutes(routes, host);
    r := ChooseRoute(routes, ms, path == "", EntryTest(path));
  }

  method NeedsMITMForHost(routes: seq<Route>, host: string) returns (mitm: bool)
    ensures mitm <==> exists k :: 0 <= k < |Matching(routes, host)| && NeedsMITM(routes[Matching(routes, host)[k]])
  {
    var ms := MatchingRoutes(routes, host);
    mitm := AnyNeedsMITM(routes, ms);
  }

  method AnyNeedsMITM(routes: seq<Route>, ms: seq<nat>) returns (mitm: bool)
    requires IndicesOf(ms, routes)
    ensures mitm <==> exists k :: 0 <= k < |ms| && NeedsMITM(routes[ms[k]])
  {
    for k := 0 to |ms|
      invariant forall j :: 0 <= j < k ==> !NeedsMITM(routes[ms[j]])
    {
      if NeedsMITM(routes[ms[k]]) {
        return true;
      }
    }
    return false;
  }

  /******* What selection guarantees *******/

  lemma EmptyEntryNeverMatches(path: string)
    requires Rooted(path)
    ensures !PathEntryMatches(path, "")
  {
    PathEntryMeaning(path, "");
  }

  /** A request passes when the selected route exists and allows the path. */
  predicate Admitted(routes: seq<Route>, host: string, path: string) {
    var r := Select(routes, host, path);
    r.Some? && PathAllowed(routes[r.value], path)
  }

  lemma OpensIsPathAllowed(route: Route, path: string)
    requires Rooted(path)
    ensures Opens(route, EntryTest(path)) <==> PathAllowed(route, path)
  {
    EmptyEntryNeverMatches(path);
    var test := EntryTest(path);
    assert forall e :: test(e) <==> PathEntryMatches(path, e);
  }

  /**
   A rooted request is admitted exactly when some route of the highest non-empty tier is
   unrestricted or has a matching entry: picking one route never loses a permission.
   */
  lemma AdmittedIffTierAllows(routes: seq<Route>, host: string, path: string)
    requires Rooted(path)
    ensures var ms := Matching(routes, host);
            Admitted(routes, host, path) <==> exists k :: 0 <= k < |ms| && PathAllowed(routes[ms[k]], path)
  {
    var ms := Matching(routes, host);
    ChooseKeepsPermission(routes, ms, EntryTest(path));
    forall route ensures Opens(route, EntryTest(path)) <==> PathAllowed(route, path) {
      OpensIsPathAllowed(route, path);
    }
  }

  /**
   With several routes in the tier, a request some entry matches goes to a route owning a
   longest matching entry, and among those to the earliest.
   */
  lemma LongestEntryWins(routes: seq<Route>, host: string, path: string, k: nat, e: nat)
    requires Rooted(path) && k < |Matching(routes, host)| && |Matching(routes, host)| > 1
    requires var entries := routes[Matching(routes, host)[k]].allowedPaths;
             e < |entries| && PathEntryMatches(path, entries[e])
    ensures var i := Matching(routes, host)[k];
            var r := Select(routes, host, path);
            && r.Some?
            && EntryLen(routes, r.value, EntryTest(path)) >= Bytes(routes[i].allowedPaths[e]) > 0
            && (Bytes(routes[i].allowedPaths[e]) == EntryLen(routes, r.value, EntryTest(path)) ==> r.value <= i)
  {
    EmptyEntryNeverMatches(path);
    TopTierAscends(routes, HostTest(host));
    ChooseLongest(routes, Matching(routes, host), EntryTest(path), k, e);
  }

  /******* The CONNECT decision *******/

  datatype Connect = Reject | Direct | Mitm

  method DecideConnect(routes: seq<Route>, host: string) returns (d: Connect)
    ensures d == ConnectDecision(routes, host)
  {
    var route := MatchRoute(routes, host, "");
    if route.None? {
      return Reject;
    }
    var mitm := NeedsMITMForHost(routes, host);
    if !mitm {
      return Direct;
    }
    return Mitm;
  }

  function ConnectDecision(routes: seq<Route>, host: string): Connect {
    var ms := Matching(routes, host);
    if ms == [] then Reject
    else if forall k :: 0 <= k < |ms| ==> !NeedsMITM(routes[ms[k]]) then Direct
    else Mitm
  }

  /** A route that changes nothing about a request. */
  predicate Transparent(route: Route) {
    route.injector == "none" && route.allowedPaths == [] && route.defaultHeaders == map[]
  }

  /**
   A direct tunnel is given only if every later request on that host is admitted by a
   transparent route; a host is rejected exactly when no request on it selects a route,
   and a request that needs injection, filtering or headers is always intercepted.
   */
  lemma ConnectAgreesWithRequests(routes: seq<Route>, host: string)
    ensures ConnectDecision(routes, host) == Direct ==>
              forall path :: Admitted(routes, host, path) &&
                             Transparent(routes[Select(routes, host, path).value])
    ensures ConnectDecision(routes, host) == Reject <==> forall path :: Select(routes, host, path).None?
    ensures (exists path :: Select(routes, host, path).Some? &&
                            NeedsMITM(routes[Select(routes, host, path).value]))
            ==> ConnectDecision(routes, host) == Mitm
  {
    if ConnectDecision(routes, host) == Direct {
      forall path
        ensures Admitted(routes, host, path) && Transparent(routes[Select(routes, host, path).value])
      {
      }
    }
    if Matching(routes, host) != [] {
      assert Select(routes, host, "").Some?;
    }
  }
}
