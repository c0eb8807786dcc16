/**
 What the three forms of a route's domain mean for a request, and which form goes first: told
 on the host and port of the request and on the text of the domain.
 */
module DomainForms {
  import opened Basics
  import opened Strings
  import opened Routes
  import opened Selection
  import opened ProxyMatcher

  /** How a request names a host: with a port or without. */
  ghost predicate Asks(host: string, h: string, port: Option<string>) {
    && Bracketless(h)
    && match port
       case None => ':' !in h && host == h
       case Some(p) => Bracketless(p) && ':' !in p && host == JoinHostPort(h, p)
  }

  lemma Folded(s: string)
    ensures ':' in Lower(s) <==> ':' in s
    ensures Bracketless(Lower(s)) <==> Bracketless(s)
  {
    LowerHas(s, ':');
    LowerHas(s, '[');
    LowerHas(s, ']');
  }

  lemma NoColonNoPort(s: string)
    requires ':' !in s
    ensures SplitHostPort(s).None?
  {
    assert AfterLast(s, ':') == 0;
  }

  /** The proxy compares the whole host and the host without its port, both in lower case. */
  lemma AskParsed(host: string, h: string, port: Option<string>)
    requires Asks(host, h, port)
    ensures ParseHost(host) == (Lower(host), Lower(h))
    ensures Lower(host) == match port
                           case None => Lower(h)
                           case Some(p) => JoinHostPort(Lower(h), Lower(p))
  {
    Folded(h);
    match port {
      case None =>
        NoColonNoPort(Lower(h));
      case Some(p) =>
        Folded(p);
        LowerJoined(h, p);
        SplitJoined(Lower(h), Lower(p));
    }
  }

  /** The host is the domain or a name below it. */
  ghost predicate AtOrBelow(hostname: string, d: string) {
    hostname == d || exists x :: hostname == x + ("." + d)
  }

  lemma BelowIsSuffix(hostname: string, d: string)
    ensures AtOrBelow(hostname, d) <==> HasSuffix(hostname, "." + d) || hostname == ("." + d)[1..]
  {
    var s := "." + d;
    assert s[1..] == d;
    if HasSuffix(hostname, s) {
      assert hostname == hostname[..|hostname| - |s|] + s;
    }
    if x :| hostname == x + s {
      assert hostname[|hostname| - |s|..] == s;
    }
  }

  /** A domain with a leading dot takes the domain itself and every name below it, on any port. */
  lemma DottedTakesBelow(route: Route, d: string, host: string, h: string, port: Option<string>)
    requires Asks(host, h, port) && Lower(route.domain) == "." + d
    ensures RouteTier(route, host) == if AtOrBelow(Lower(h), d) then Some(Suffix) else None
  {
    AskParsed(host, h, port);
    BelowIsSuffix(Lower(h), d);
    DotFirst("." + d);
  }

  /** A bare name. */
  predicate BareName(d: string) {
    ':' !in d && !HasPrefix(d, ".")
  }

  /** A bare domain takes that name alone, on any port. */
  lemma BareTakesItself(route: Route, host: string, h: string, port: Option<string>)
    requires Asks(host, h, port) && BareName(Lower(route.domain))
    ensures RouteTier(route, host) == if Lower(h) == Lower(route.domain) then Some(Exact) else None
  {
    AskParsed(host, h, port);
    NoColonNoPort(Lower(route.domain));
  }

  /** A domain with a port takes that name on that port alone. */
  lemma PortTakesItsPort(route: Route, d: string, q: string, host: string, h: string, port: Option<string>)
    requires Asks(host, h, port) && Lower(route.domain) == d + ":" + q
    requires BareName(d) && Bracketless(d) && Bracketless(q) && ':' !in q
    ensures RouteTier(route, host)
            == if port.Some? && Lower(h) == d && Lower(port.value) == q then Some(PortExact) else None
  {
    AskParsed(host, h, port);
    Folded(h);
    SplitPlain(d, q);
    DotFirst(d);
    DotFirst(d + ":" + q);
    if port.None? {
      assert (d + ":" + q)[|d|] == ':';
    } else {
      Folded(port.value);
      SameAddress(Lower(h), Lower(port.value), d, q);
    }
  }

  lemma SameAddress(h: string, p: string, d: string, q: string)
    requires Bracketless(h) && Bracketless(p) && ':' !in p
    requires ':' !in d && Bracketless(d) && Bracketless(q) && ':' !in q
    ensures JoinHostPort(h, p) == d + ":" + q <==> h == d && p == q
  {
    SplitPlain(d, q);
    SplitJoined(h, p);
  }

  /******* Precedence *******/

  /** No domain of the list is the host name, or the host name with its port. */
  ghost predicate OnlyDotted(routes: seq<Route>, host: string, h: string) {
    forall k :: 0 <= k < |routes| ==> Lower(routes[k].domain) != Lower(h) && Lower(routes[k].domain) != Lower(host)
  }

  lemma HigherTierNames(route: Route, host: string, h: string, port: Option<string>)
    requires Asks(host, h, port) && RouteTier(route, host) in {Some(Exact), Some(PortExact)}
    ensures Lower(route.domain) == Lower(h) || Lower(route.domain) == Lower(host)
  {
    AskParsed(host, h, port);
  }

  /**
   A request at or below the domain of a dotted route, where no route names the host, is given
   to dotted routes it is at or below, and to one of them when no path is asked for.
   */
  lemma SubdomainReachesDotted(routes: seq<Route>, j: nat, d: string, host: string, h: string, port: Option<string>)
    requires Asks(host, h, port) && j < |routes| && Lower(routes[j].domain) == "." + d && AtOrBelow(Lower(h), d)
    requires OnlyDotted(routes, host, h)
    ensures j in Matching(routes, host) && Select(routes, host, "").Some?
    ensures forall k :: 0 <= k < |Matching(routes, host)| ==>
              exists c :: Lower(routes[Matching(routes, host)[k]].domain) == "." + c && AtOrBelow(Lower(h), c)
  {
    DottedTakesBelow(routes[j], d, host, h, port);
    var ms := Matching(routes, host);
    TopTierNonEmpty(routes, HostTest(host), j);
    forall k | 0 <= k < |routes| ensures RouteTier(routes[k], host) !in {Some(Exact), Some(PortExact)} {
      if RouteTier(routes[k], host) in {Some(Exact), Some(PortExact)} {
        HigherTierNames(routes[k], host, h, port);
      }
    }
    LowestTier(routes, host, j);
    forall k | 0 <= k < |ms|
      ensures exists c :: Lower(routes[ms[k]].domain) == "." + c && AtOrBelow(Lower(h), c)
    {
      TopTierIsHighest(routes, HostTest(host), k, j);
      SuffixIsDotted(routes[ms[k]], host, h, port);
    }
  }

  lemma LowestTier(routes: seq<Route>, host: string, j: nat)
    requires j < |routes| && RouteTier(routes[j], host) == Some(Suffix)
    requires forall k :: 0 <= k < |routes| ==> RouteTier(routes[k], host) !in {Some(Exact), Some(PortExact)}
    ensures j in Matching(routes, host)
  {
    EmptyTier(routes, HostTest(host), PortExact, |routes|);
    EmptyTier(routes, HostTest(host), Exact, |routes|);
  }

  lemma SuffixIsDotted(route: Route, host: string, h: string, port: Option<string>)
    requires Asks(host, h, port) && RouteTier(route, host) == Some(Suffix)
    ensures exists c :: Lower(route.domain) == "." + c && AtOrBelow(Lower(h), c)
  {
    var domain := Lower(route.domain);
    assert domain == "." + domain[1..];
    DottedTakesBelow(route, domain[1..], host, h, port);
  }

  /** A route on the bare name goes before every dotted one. */
  lemma BareGoesFirst(routes: seq<Route>, j: nat, host: string, h: string, port: Option<string>, k: nat)
    requires Asks(host, h, port) && j < |routes| && BareName(Lower(routes[j].domain)) && Lower(routes[j].domain) == Lower(h)
    requires k < |Matching(routes, host)|
    ensures var domain := Lower(routes[Matching(routes, host)[k]].domain); domain == Lower(h) || domain == Lower(host)
  {
    BareTakesItself(routes[j], host, h, port);
    TopTierIsHighest(routes, HostTest(host), k, j);
    HigherTierNames(routes[Matching(routes, host)[k]], host, h, port);
  }

  /** A route on name and port goes before every other. */
  lemma PortGoesFirst(routes: seq<Route>, j: nat, host: string, h: string, p: string, k: nat)
    requires Asks(host, h, Some(p)) && BareName(Lower(h)) && j < |routes| && Lower(routes[j].domain) == Lower(h) + ":" + Lower(p)
    requires k < |Matching(routes, host)|
    ensures Lower(routes[Matching(routes, host)[k]].domain) == Lower(h) + ":" + Lower(p)
  {
    Folded(h);
    Folded(p);
    AskParsed(host, h, Some(p));
    PortTakesItsPort(routes[j], Lower(h), Lower(p), host, h, Some(p));
    TopTierIsHighest(routes, HostTest(host), k, j);
  }

  /** Alone in its tier a route is selected for every path, and without a path the first of the tier is. */
  lemma AloneIsSelected(routes: seq<Route>, host: string, path: string)
    ensures var ms := Matching(routes, host);
            && (ms == [] ==> Select(routes, host, path) == None)
            && (|ms| == 1 || (ms != [] && path == "") ==> Select(routes, host, path) == Some(ms[0]))
  {
  }

  /******* The CONNECT decision *******/

  /** Rejected without a route, direct if all routes of the highest tier change nothing, intercepted otherwise. */
  lemma DecisionMeans(routes: seq<Route>, host: string)
    ensures var ms := Matching(routes, host);
            && (ConnectDecision(routes, host) == Reject <==> ms == [])
            && (ConnectDecision(routes, host) == Direct <==>
                  ms != [] && forall k :: 0 <= k < |ms| ==>
                    routes[ms[k]].injector == "none" && routes[ms[k]].allowedPaths == [] && routes[ms[k]].defaultHeaders == map[])
  {
    var ms := Matching(routes, host);
    assert forall k :: 0 <= k < |ms| && |routes[ms[k]].defaultHeaders| == 0 ==> routes[ms[k]].defaultHeaders == map[];
  }
}
