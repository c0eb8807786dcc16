/** When the compiled route list depends on the order in which Go walks the MCP server map. */
module RouteOrder {
  import opened Basics
  import opened Strings
  import opened Routes
  import opened RouteCompiler
  import RouteTheorems
  import StableSort

  /** The same servers, in whatever order. */
  ghost predicate SameServers(s: seq<McpServer>, t: seq<McpServer>) {
    forall x :: x in s <==> x in t
  }

  /**
   Two servers of one pass would both get a route of their own, and the first one's route covers
   the host of the second: the hosts are equal, or the first is a dotted suffix of the second.
   */
  ghost predicate Covers(withCredential: bool, covered: set<string>, a: McpServer, b: McpServer) {
    && Wanted(a, withCredential) && Wanted(b, withCredential)
    && !DomainCovered(Lower(a.host), covered) && !DomainCovered(Lower(b.host), covered)
    && DomainCovered(Lower(b.host), {Lower(a.host)})
  }

  /** The servers stand in each other's way: one covers the other, which would have got another route. */
  ghost predicate Clash(creds: seq<Credential>, withCredential: bool, covered: set<string>, a: McpServer, b: McpServer) {
    Covers(withCredential, covered, a, b) && McpRoute(creds, a) != McpRoute(creds, b)
  }

  ghost predicate NoClash(creds: seq<Credential>, withCredential: bool, covered: set<string>, servers: seq<McpServer>) {
    forall a, b :: a in servers && b in servers ==> !Clash(creds, withCredential, covered, a, b)
  }

  /** No host lies below another, dotted one. */
  ghost predicate Apart(withCredential: bool, covered: set<string>, servers: seq<McpServer>) {
    forall a, b :: a in servers && b in servers && Covers(withCredential, covered, a, b) ==> Lower(a.host) == Lower(b.host)
  }

  lemma NoClashApart(creds: seq<Credential>, withCredential: bool, covered: set<string>, servers: seq<McpServer>)
    requires NoClash(creds, withCredential, covered, servers)
    ensures Apart(withCredential, covered, servers)
  {
    forall a, b | a in servers && b in servers && Covers(withCredential, covered, a, b) ensures Lower(a.host) == Lower(b.host) {
      assert !Clash(creds, withCredential, covered, a, b);
    }
  }

  /** Hosts that get a route of their own: wanted, and not covered at the start. */
  ghost function FreshHosts(servers: seq<McpServer>, withCredential: bool, covered: set<string>): set<string> {
    set i | 0 <= i < |servers| && Wanted(servers[i], withCredential) && !DomainCovered(Lower(servers[i].host), covered)
      :: Lower(servers[i].host)
  }

  /** What the servers of a pass find covered when no two of them clash. */
  ghost predicate Harmless(creds: seq<Credential>, servers: seq<McpServer>, webSearch: Option<string>, builtins: seq<Builtin>) {
    var covered := Base(creds, webSearch, builtins).covered;
    NoClash(creds, true, covered, servers) && NoClash(creds, false, covered + FreshHosts(servers, true, covered), servers)
  }

  lemma CoveredByFresh(withCredential: bool, covered: set<string>, init: seq<McpServer>, s: McpServer)
    requires Apart(withCredential, covered, init + [s]) && Wanted(s, withCredential)
    ensures var d, taken := Lower(s.host), FreshHosts(init, withCredential, covered);
            DomainCovered(d, covered + taken) <==> DomainCovered(d, covered) || d in taken
  {
    var d, taken := Lower(s.host), FreshHosts(init, withCredential, covered);
    if DomainCovered(d, covered + taken) && !DomainCovered(d, covered) {
      var c :| c in taken && DomainCovered(d, {c});
      var i :| 0 <= i < |init| && Wanted(init[i], withCredential) && !DomainCovered(Lower(init[i].host), covered) && c == Lower(init[i].host);
      assert init[i] in init + [s] && s in init + [s] && Covers(withCredential, covered, init[i], s);
    }
  }

  ghost predicate DistinctDomains(es: seq<Emitted>) {
    forall i, j :: 0 <= i < j < |es| ==> es[i].route.domain != es[j].route.domain
  }

  /** The added routes come one per fresh host, each from a server with that host. */
  ghost predicate OnePerHost(
    creds: seq<Credential>, withCredential: bool, servers: seq<McpServer>, hosts: set<string>, added: seq<Emitted>)
  {
    && DistinctDomains(added)
    && (forall d :: d in hosts <==> exists e :: e in added && e.route.domain == d)
    && (forall e :: e in added ==>
          exists s :: s in servers && Wanted(s, withCredential)
                      && e == Emitted(McpRoute(creds, s), McpOrigin(withCredential)))
  }

  lemma FreshSnoc(init: seq<McpServer>, s: McpServer, withCredential: bool, covered: set<string>)
    ensures FreshHosts(init + [s], withCredential, covered)
            == FreshHosts(init, withCredential, covered)
               + (if Wanted(s, withCredential) && !DomainCovered(Lower(s.host), covered) then {Lower(s.host)} else {})
  {
    var servers := init + [s];
    assert forall i :: 0 <= i < |init| ==> servers[i] == init[i];
    assert servers[|init|] == s;
  }

  /** Whether the next server adds a route is settled by the domains covered at the start. */
  lemma NextServer(creds: seq<Credential>, withCredential: bool, acc: Acc, init: seq<McpServer>, s: McpServer,
                   before: seq<Emitted>)
    requires Apart(withCredential, acc.covered, init + [s])
    requires AddServers(creds, withCredential, acc, init)
             == Acc(acc.out + before, acc.covered + FreshHosts(init, withCredential, acc.covered))
    ensures var d, taken := Lower(s.host), FreshHosts(init, withCredential, acc.covered);
            AddServers(creds, withCredential, acc, init + [s]) ==
            if Wanted(s, withCredential) && !DomainCovered(d, acc.covered) && d !in taken
            then Acc(acc.out + (before + [Emitted(McpRoute(creds, s), McpOrigin(withCredential))]), acc.covered + (taken + {d}))
            else Acc(acc.out + before, acc.covered + taken)
  {
    LowerIdempotent(s.host);
    assert (init + [s])[..|init|] == init;
    if Wanted(s, withCredential) {
      CoveredByFresh(withCredential, acc.covered, init, s);
      var e, d, taken := Emitted(McpRoute(creds, s), McpOrigin(withCredential)), Lower(s.host), FreshHosts(init, withCredential, acc.covered);
      assert acc.out + before + [e] == acc.out + (before + [e]);
      assert acc.covered + taken + {d} == acc.covered + (taken + {d});
    }
  }

  lemma {:induction false} ServersShape(creds: seq<Credential>, withCredential: bool, acc: Acc, servers: seq<McpServer>)
    returns (added: seq<Emitted>)
    requires Apart(withCredential, acc.covered, servers)
    ensures var hosts := FreshHosts(servers, withCredential, acc.covered);
            && AddServers(creds, withCredential, acc, servers) == Acc(acc.out + added, acc.covered + hosts)
            && OnePerHost(creds, withCredential, servers, hosts, added)
  {
    if servers == [] {
      added := [];
    } else {
      var last := |servers| - 1;
      var (init, s) := (servers[..last], servers[last]);
      assert servers == init + [s];
      added := ServersShape(creds, withCredential, acc, init);
      FreshSnoc(init, s, withCredential, acc.covered);
      NextServer(creds, withCredential, acc, init, s, added);
      var taken := FreshHosts(init, withCredential, acc.covered);
      assert OnePerHost(creds, withCredential, servers, taken, added);
      if Wanted(s, withCredential) && !DomainCovered(Lower(s.host), acc.covered) && Lower(s.host) !in taken {
        ShapeSnoc(creds, withCredential, servers, s, taken, added);
        added := added + [Emitted(McpRoute(creds, s), McpOrigin(withCredential))];
      } else {
        assert FreshHosts(servers, withCredential, acc.covered) == taken;
      }
    }
  }

  lemma ShapeSnoc(creds: seq<Credential>, withCredential: bool, servers: seq<McpServer>, s: McpServer,
                  hosts: set<string>, before: seq<Emitted>)
    requires s in servers && Wanted(s, withCredential) && Lower(s.host) !in hosts
    requires OnePerHost(creds, withCredential, servers, hosts, before)
    ensures OnePerHost(creds, withCredential, servers, hosts + {Lower(s.host)},
                       before + [Emitted(McpRoute(creds, s), McpOrigin(withCredential))])
  {
    var e := Emitted(McpRoute(creds, s), McpOrigin(withCredential));
    var added := before + [e];
    assert forall x :: x in added <==> x in before || x == e;
    assert forall i :: 0 <= i < |before| ==> before[i] in before && before[i].route.domain in hosts;
  }

  lemma {:induction false} NoTies(es: seq<Emitted>, x: Emitted)
    requires forall i :: 0 <= i < |es| ==> es[i].route.domain != x.route.domain
    ensures StableSort.Ties(EmittedLess(), es, x) == []
  {
    RouteTheorems.EmittedOrderIsStrictWeak();
    if es != [] {
      NoTies(es[1..], x);
    }
  }

  /** Lists with one route per domain and the same members have the same ties. */
  lemma {:induction false} TiesOfDistinct(es: seq<Emitted>, x: Emitted)
    requires DistinctDomains(es)
    ensures var r := StableSort.Ties(EmittedLess(), es, x);
            |r| <= 1
  {
    RouteTheorems.EmittedOrderIsStrictWeak();
    if es != [] {
      if StableSort.Tied(EmittedLess(), es[0], x) {
        NoTies(es[1..], x);
      } else {
        TiesOfDistinct(es[1..], x);
      }
    }
  }

  lemma SameTies(es: seq<Emitted>, fs: seq<Emitted>, x: Emitted)
    requires DistinctDomains(es) && DistinctDomains(fs)
    requires forall e :: e in es <==> e in fs
    ensures StableSort.Ties(EmittedLess(), es, x) == StableSort.Ties(EmittedLess(), fs, x)
  {
    TiesOfDistinct(es, x);
    TiesOfDistinct(fs, x);
    SameShortTies(EmittedLess(), es, fs, x);
  }

  lemma SameShortTies(less: (Emitted, Emitted) -> bool, es: seq<Emitted>, fs: seq<Emitted>, x: Emitted)
    requires |StableSort.Ties(less, es, x)| <= 1 && |StableSort.Ties(less, fs, x)| <= 1
    requires forall e :: e in es <==> e in fs
    ensures StableSort.Ties(less, es, x) == StableSort.Ties(less, fs, x)
  {
    var r, q := StableSort.Ties(less, es, x), StableSort.Ties(less, fs, x);
    assert r != [] ==> r[0] in q;
    assert q != [] ==> q[0] in r;
  }

  lemma OneHostOneRoute(creds: seq<Credential>, withCredential: bool, covered: set<string>, servers: seq<McpServer>, a: McpServer, b: McpServer)
    requires NoClash(creds, withCredential, covered, servers) && a in servers && b in servers
    requires Wanted(a, withCredential) && Wanted(b, withCredential)
    requires Lower(a.host) == Lower(b.host) && !DomainCovered(Lower(a.host), covered)
    ensures McpRoute(creds, a) == McpRoute(creds, b)
  {
    assert !Clash(creds, withCredential, covered, a, b);
    assert Lower(b.host) in {Lower(a.host)};
  }

  /** For the same servers the added routes have the same members. */
  lemma SameAdded(creds: seq<Credential>, withCredential: bool, s: seq<McpServer>, t: seq<McpServer>,
                  covered: set<string>, hosts: set<string>, es: seq<Emitted>, fs: seq<Emitted>, e: Emitted)
    requires SameServers(s, t) && NoClash(creds, withCredential, covered, s)
    requires forall d :: d in hosts ==> !DomainCovered(d, covered)
    requires OnePerHost(creds, withCredential, s, hosts, es) && OnePerHost(creds, withCredential, t, hosts, fs)
    requires e in es
    ensures e in fs
  {
    var a :| a in s && Wanted(a, withCredential) && e == Emitted(McpRoute(creds, a), McpOrigin(withCredential));
    assert e.route.domain in hosts;
    var f :| f in fs && f.route.domain == e.route.domain;
    var b :| b in t && Wanted(b, withCredential) && f == Emitted(McpRoute(creds, b), McpOrigin(withCredential));
    OneHostOneRoute(creds, withCredential, covered, s, a, b);
  }

  lemma SameFreshHosts(s: seq<McpServer>, t: seq<McpServer>, withCredential: bool, covered: set<string>)
    requires SameServers(s, t)
    ensures FreshHosts(s, withCredential, covered) == FreshHosts(t, withCredential, covered)
  {
    FreshHostsWithin(s, t, withCredential, covered);
    FreshHostsWithin(t, s, withCredential, covered);
  }

  lemma FreshHostsWithin(s: seq<McpServer>, t: seq<McpServer>, withCredential: bool, covered: set<string>)
    requires SameServers(s, t)
    ensures FreshHosts(s, withCredential, covered) <= FreshHosts(t, withCredential, covered)
  {
    forall d | d in FreshHosts(s, withCredential, covered) ensures d in FreshHosts(t, withCredential, covered) {
      var i :| 0 <= i < |s| && Wanted(s[i], withCredential) && !DomainCovered(Lower(s[i].host), covered) && d == Lower(s[i].host);
      assert s[i] in t;
      var j :| 0 <= j < |t| && t[j] == s[i];
    }
  }

  /** Adding the same servers in two orders gives the same domains and the same ties. */
  lemma AddedInAnyOrder(creds: seq<Credential>, withCredential: bool, acc: Acc, s: seq<McpServer>, t: seq<McpServer>)
    returns (es: seq<Emitted>, fs: seq<Emitted>)
    requires SameServers(s, t) && NoClash(creds, withCredential, acc.covered, s)
    ensures AddServers(creds, withCredential, acc, s).out == acc.out + es
    ensures AddServers(creds, withCredential, acc, t).out == acc.out + fs
    ensures AddServers(creds, withCredential, acc, s).covered == AddServers(creds, withCredential, acc, t).covered
    ensures AddServers(creds, withCredential, acc, s).covered == acc.covered + FreshHosts(s, withCredential, acc.covered)
    ensures forall x :: StableSort.Ties(EmittedLess(), es, x) == StableSort.Ties(EmittedLess(), fs, x)
  {
    assert NoClash(creds, withCredential, acc.covered, t);
    NoClashApart(creds, withCredential, acc.covered, s);
    NoClashApart(creds, withCredential, acc.covered, t);
    es := ServersShape(creds, withCredential, acc, s);
    fs := ServersShape(creds, withCredential, acc, t);
    SameFreshHosts(s, t, withCredential, acc.covered);
    var hosts := FreshHosts(s, withCredential, acc.covered);
    forall e ensures e in es <==> e in fs {
      if e in es { SameAdded(creds, withCredential, s, t, acc.covered, hosts, es, fs, e); }
      if e in fs { SameAdded(creds, withCredential, t, s, acc.covered, hosts, fs, es, e); }
    }
    forall x ensures StableSort.Ties(EmittedLess(), es, x) == StableSort.Ties(EmittedLess(), fs, x) {
      SameTies(es, fs, x);
    }
  }

  /** What an accumulator adds depends only on the domains covered. */
  lemma {:induction false} AddedDependsOnCovered(
      creds: seq<Credential>, withCredential: bool, a: Acc, b: Acc, servers: seq<McpServer>) returns (added: seq<Emitted>)
    requires a.covered == b.covered
    ensures AddServers(creds, withCredential, a, servers).out == a.out + added
    ensures AddServers(creds, withCredential, b, servers).out == b.out + added
    ensures AddServers(creds, withCredential, a, servers).covered == AddServers(creds, withCredential, b, servers).covered
  {
    if servers == [] {
      added := [];
    } else {
      var last := |servers| - 1;
      added := AddedDependsOnCovered(creds, withCredential, a, b, servers[..last]);
      var s := servers[last];
      var mid := AddServers(creds, withCredential, a, servers[..last]);
      if Wanted(s, withCredential) && !DomainCovered(Lower(McpRoute(creds, s).domain), mid.covered) {
        added := added + [Emitted(McpRoute(creds, s), McpOrigin(withCredential))];
      }
    }
  }

  lemma TiesOfFour(less: (Emitted, Emitted) -> bool, a: seq<Emitted>, b: seq<Emitted>, c: seq<Emitted>, d: seq<Emitted>, x: Emitted)
    ensures StableSort.Ties(less, a + b + c + d, x)
            == StableSort.Ties(less, a, x) + StableSort.Ties(less, b, x) + StableSort.Ties(less, c, x) + StableSort.Ties(less, d, x)
  {
    StableSort.TiesConcat(less, a + b + c, d, x);
    StableSort.TiesConcat(less, a + b, c, x);
    StableSort.TiesConcat(less, a, b, x);
  }

  lemma ExactTiesInAnyOrder(
      creds: seq<Credential>, s: seq<McpServer>, t: seq<McpServer>, webSearch: Option<string>, builtins: seq<Builtin>)
    requires SameServers(s, t) && Harmless(creds, s, webSearch, builtins)
    ensures forall x :: StableSort.Ties(EmittedLess(), ExactRoutes(creds, s, webSearch, builtins), x)
                        == StableSort.Ties(EmittedLess(), ExactRoutes(creds, t, webSearch, builtins), x)
  {
    var base := Base(creds, webSearch, builtins);
    var es, fs := AddedInAnyOrder(creds, true, base, s, t);
    var (ms, mt) := (AddServers(creds, true, base, s), AddServers(creds, true, base, t));
    var ps, pt := AddedInAnyOrder(creds, false, ms, s, t);
    var pt' := AddedDependsOnCovered(creds, false, ms, mt, t);
    assert ms.out + pt == ms.out + pt';
    assert pt == pt' by {
      assert (ms.out + pt)[|ms.out|..] == pt && (ms.out + pt')[|ms.out|..] == pt';
    }
    var own := CredentialRoutes(creds, false);
    assert ExactRoutes(creds, s, webSearch, builtins) == base.out + es + ps + own;
    assert ExactRoutes(creds, t, webSearch, builtins) == base.out + fs + pt + own;
    forall x
      ensures StableSort.Ties(EmittedLess(), ExactRoutes(creds, s, webSearch, builtins), x)
              == StableSort.Ties(EmittedLess(), ExactRoutes(creds, t, webSearch, builtins), x)
    {
      TiesOfFour(EmittedLess(), base.out, es, ps, own, x);
      TiesOfFour(EmittedLess(), base.out, fs, pt, own, x);
    }
  }

  /** Two results are written alike: neither is written, or both hold the same routes. */
  ghost predicate SameConfig(g: Result<seq<Emitted>, MissingRef>, h: Result<seq<Emitted>, MissingRef>) {
    g.Ok? == h.Ok? && (g.Ok? ==> RoutesIn(g.value) == RoutesIn(h.value))
  }

  /**
   For every two orders of the same MCP servers the compiler succeeds on both or on neither,
   and emits the same route list, provided no two servers of a pass stand in each other's way.
   */
  lemma GenerateInAnyOrder(
      creds: seq<Credential>, s: seq<McpServer>, t: seq<McpServer>, webSearch: Option<string>, builtins: seq<Builtin>)
    requires SameServers(s, t) && Harmless(creds, s, webSearch, builtins)
    ensures var (g, h) := (Generate(creds, s, webSearch, builtins), Generate(creds, t, webSearch, builtins));
            g.Ok? == h.Ok? && (g.Ok? ==> g.value == h.value)
  {
    SameMissing(creds, s, t);
    ExactTiesInAnyOrder(creds, s, t, webSearch, builtins);
    RouteTheorems.EmittedOrderIsStrictWeak();
    StableSort.SortDependsOnTies(EmittedLess(), ExactRoutes(creds, s, webSearch, builtins), ExactRoutes(creds, t, webSearch, builtins));
  }

  lemma SameMissing(creds: seq<Credential>, s: seq<McpServer>, t: seq<McpServer>)
    requires SameServers(s, t)
    ensures FirstMissing(creds, s).None? <==> FirstMissing(creds, t).None?
  {
    assert forall i :: 0 <= i < |s| ==> s[i] in t;
    assert forall i :: 0 <= i < |t| ==> t[i] in s;
  }

  /******* How often a route is written *******/

  function Written(es: seq<Emitted>, r: Route): nat {
    if es == [] then 0 else (if es[0].route == r then 1 else 0) + Written(es[1..], r)
  }

  lemma {:induction false} WrittenConcat(es: seq<Emitted>, fs: seq<Emitted>, r: Route)
    ensures Written(es + fs, r) == Written(es, r) + Written(fs, r)
    decreases |es|
  {
    if es == [] {
      assert es + fs == fs;
    } else {
      assert (es + fs)[1..] == es[1..] + fs;
      WrittenConcat(es[1..], fs, r);
    }
  }

  lemma {:induction false} WrittenPermuted(es: seq<Emitted>, fs: seq<Emitted>, r: Route)
    requires multiset(es) == multiset(fs)
    ensures Written(es, r) == Written(fs, r)
    decreases |es|
  {
    assert |es| == |multiset(es)| == |multiset(fs)| == |fs|;
    if es != [] {
      var i := StableSort.Position(es[0], es, fs);
      var rest := fs[..i] + fs[i + 1..];
      StableSort.RemoveOne(es, fs, i);
      WrittenPermuted(es[1..], rest, r);
      assert fs == fs[..i] + ([fs[i]] + fs[i + 1..]);
      WrittenConcat(fs[..i], [fs[i]] + fs[i + 1..], r);
      WrittenConcat([fs[i]], fs[i + 1..], r);
      WrittenConcat(fs[..i], fs[i + 1..], r);
    }
  }

  lemma {:induction false} WrittenInRoutes(es: seq<Emitted>, fs: seq<Emitted>, r: Route)
    requires RoutesIn(es) == RoutesIn(fs)
    ensures Written(es, r) == Written(fs, r)
    decreases |es|
  {
    assert |es| == |RoutesIn(es)| == |RoutesIn(fs)| == |fs|;
    if es != [] {
      assert RoutesIn(es)[0] == RoutesIn(fs)[0];
      assert RoutesIn(es[1..]) == RoutesIn(es)[1..] == RoutesIn(fs)[1..] == RoutesIn(fs[1..]);
      WrittenInRoutes(es[1..], fs[1..], r);
    }
  }

  lemma {:induction false} NotWritten(es: seq<Emitted>, r: Route)
    requires forall e :: e in es ==> e.route.domain != r.domain
    ensures Written(es, r) == 0
  {
    if es != [] {
      NotWritten(es[1..], r);
    }
  }

  /** Sorting does not change how often a route is written. */
  lemma WrittenInConfig(
      creds: seq<Credential>, servers: seq<McpServer>, webSearch: Option<string>, builtins: seq<Builtin>, r: Route)
    ensures Written(Compiled(creds, servers, webSearch, builtins), r)
            == Written(ExactRoutes(creds, servers, webSearch, builtins), r) + Written(CredentialRoutes(creds, true), r)
  {
    var exact, suffix := ExactRoutes(creds, servers, webSearch, builtins), CredentialRoutes(creds, true);
    RouteTheorems.EmittedOrderIsStrictWeak();
    StableSort.SortKeeps(EmittedLess(), exact);
    StableSort.SortKeeps(EmittedLess(), suffix);
    WrittenConcat(StableSort.Sort(EmittedLess(), exact), StableSort.Sort(EmittedLess(), suffix), r);
    WrittenPermuted(StableSort.Sort(EmittedLess(), exact), exact, r);
    WrittenPermuted(StableSort.Sort(EmittedLess(), suffix), suffix, r);
  }

  /******* The first server on a host decides *******/

  ghost predicate TakenDomains(acc: Acc) {
    forall e :: e in acc.out ==> e.route.domain in acc.covered || Lower(e.route.domain) in acc.covered
  }

  lemma {:induction false} BuiltinsTaken(acc: Acc, builtins: seq<Builtin>)
    requires TakenDomains(acc)
    ensures TakenDomains(AddBuiltins(acc, builtins))
  {
    if builtins != [] {
      BuiltinsTaken(acc, builtins[..|builtins| - 1]);
    }
  }

  /** Nothing taken before the servers is on a domain that is still uncovered. */
  lemma BaseElsewhere(creds: seq<Credential>, webSearch: Option<string>, builtins: seq<Builtin>, d: string)
    requires Lower(d) == d && !DomainCovered(d, Base(creds, webSearch, builtins).covered)
    ensures forall e :: e in Base(creds, webSearch, builtins).out ==> e.route.domain != d
  {
    BuiltinsTaken(Acc([], CredentialDomains(creds)), builtins);
    assert TakenDomains(Base(creds, webSearch, builtins));
  }

  lemma {:induction false} CoveredGrows(creds: seq<Credential>, withCredential: bool, acc: Acc, servers: seq<McpServer>)
    ensures acc.covered <= AddServers(creds, withCredential, acc, servers).covered
  {
    if servers != [] {
      CoveredGrows(creds, withCredential, acc, servers[..|servers| - 1]);
    }
  }

  /** A pass adds nothing on a domain that is covered, and covers every domain it adds a route on. */
  lemma {:induction false} PassElsewhere(creds: seq<Credential>, withCredential: bool, acc: Acc, servers: seq<McpServer>, r: Route)
    requires var after := AddServers(creds, withCredential, acc, servers).covered;
             DomainCovered(r.domain, acc.covered) || !DomainCovered(r.domain, after)
    ensures var after := AddServers(creds, withCredential, acc, servers);
            Written(after.out, r) == Written(acc.out, r) && (DomainCovered(r.domain, acc.covered) ==> DomainCovered(r.domain, after.covered))
  {
    CoveredGrows(creds, withCredential, acc, servers);
    if servers != [] {
      var last := |servers| - 1;
      var (mid, s) := (AddServers(creds, withCredential, acc, servers[..last]), servers[last]);
      PassElsewhere(creds, withCredential, acc, servers[..last], r);
      LowerIdempotent(s.host);
      WrittenConcat(mid.out, [Emitted(McpRoute(creds, s), McpOrigin(withCredential))], r);
    }
  }

  lemma {:induction false} FirstServerFirst(creds: seq<Credential>, withCredential: bool, acc: Acc, servers: seq<McpServer>)
    requires servers != []
    ensures AddServers(creds, withCredential, acc, servers)
            == AddServers(creds, withCredential, AddServer(creds, withCredential, acc, servers[0]), servers[1..])
    decreases |servers|
  {
    var last := |servers| - 1;
    if last > 0 {
      FirstServerFirst(creds, withCredential, acc, servers[..last]);
      assert servers[..last][1..] == servers[1..][..last - 1];
    } else {
      assert servers[..last] == [];
    }
  }

  /** In a pass, a route on a domain that the first server's route covers is written if it is that route. */
  lemma FirstInPass(creds: seq<Credential>, withCredential: bool, acc: Acc, servers: seq<McpServer>, r: Route)
    requires servers != [] && Wanted(servers[0], withCredential)
    requires DomainCovered(r.domain, {Lower(servers[0].host)}) && !DomainCovered(Lower(servers[0].host), acc.covered)
    ensures var after := AddServers(creds, withCredential, acc, servers);
            && DomainCovered(r.domain, after.covered)
            && Written(after.out, r) == Written(acc.out, r) + (if r == McpRoute(creds, servers[0]) then 1 else 0)
  {
    var a := servers[0];
    var first := AddServer(creds, withCredential, acc, a);
    LowerIdempotent(a.host);
    FirstServerFirst(creds, withCredential, acc, servers);
    WrittenConcat(acc.out, [Emitted(McpRoute(creds, a), McpOrigin(withCredential))], r);
    PassElsewhere(creds, withCredential, first, servers[1..], r);
  }

  /**
   Among the exact routes, those on a free domain that the first server's credential route
   covers are that server's route once and what the credentials bring.
   */
  lemma FirstServerDecides(
      creds: seq<Credential>, servers: seq<McpServer>, webSearch: Option<string>, builtins: seq<Builtin>, r: Route)
    requires servers != [] && Wanted(servers[0], true) && DomainCovered(r.domain, {Lower(servers[0].host)})
    requires var covered := Base(creds, webSearch, builtins).covered;
             Lower(r.domain) == r.domain && !DomainCovered(r.domain, covered) && !DomainCovered(Lower(servers[0].host), covered)
    ensures Written(ExactRoutes(creds, servers, webSearch, builtins), r)
            == (if r == McpRoute(creds, servers[0]) then 1 else 0) + Written(CredentialRoutes(creds, false), r)
  {
    var base := Base(creds, webSearch, builtins);
    var mid := AddServers(creds, true, base, servers);
    BaseElsewhere(creds, webSearch, builtins, r.domain);
    NotWritten(base.out, r);
    FirstInPass(creds, true, base, servers, r);
    PassElsewhere(creds, false, mid, servers, r);
    WrittenConcat(AddServers(creds, false, mid, servers).out, CredentialRoutes(creds, false), r);
  }

  /** The same of the first server without a credential, on domains the credential pass leaves uncovered. */
  lemma FirstPassthroughDecides(
      creds: seq<Credential>, servers: seq<McpServer>, webSearch: Option<string>, builtins: seq<Builtin>, r: Route)
    requires servers != [] && Wanted(servers[0], false) && DomainCovered(r.domain, {Lower(servers[0].host)})
    requires var covered := AddServers(creds, true, Base(creds, webSearch, builtins), servers).covered;
             Lower(r.domain) == r.domain && !DomainCovered(r.domain, covered) && !DomainCovered(Lower(servers[0].host), covered)
    ensures Written(ExactRoutes(creds, servers, webSearch, builtins), r)
            == (if r == McpRoute(creds, servers[0]) then 1 else 0) + Written(CredentialRoutes(creds, false), r)
  {
    var base := Base(creds, webSearch, builtins);
    var mid := AddServers(creds, true, base, servers);
    CoveredGrows(creds, true, base, servers);
    BaseElsewhere(creds, webSearch, builtins, r.domain);
    NotWritten(base.out, r);
    PassElsewhere(creds, true, base, servers, r);
    FirstInPass(creds, false, mid, servers, r);
    WrittenConcat(AddServers(creds, false, mid, servers).out, CredentialRoutes(creds, false), r);
  }

  /** A route written differently often among the exact routes makes the configs differ. */
  lemma CountsDiffer(
      creds: seq<Credential>, s: seq<McpServer>, t: seq<McpServer>, webSearch: Option<string>, builtins: seq<Builtin>, r: Route)
    requires SameServers(s, t) && FirstMissing(creds, s).None?
    requires Written(ExactRoutes(creds, s, webSearch, builtins), r) != Written(ExactRoutes(creds, t, webSearch, builtins), r)
    ensures var (g, h) := (Generate(creds, s, webSearch, builtins), Generate(creds, t, webSearch, builtins));
            g.Ok? && h.Ok? && RoutesIn(g.value) != RoutesIn(h.value)
  {
    SameMissing(creds, s, t);
    WrittenInConfig(creds, s, webSearch, builtins, r);
    WrittenInConfig(creds, t, webSearch, builtins, r);
    if RoutesIn(Compiled(creds, s, webSearch, builtins)) == RoutesIn(Compiled(creds, t, webSearch, builtins)) {
      WrittenInRoutes(Compiled(creds, s, webSearch, builtins), Compiled(creds, t, webSearch, builtins), r);
    }
  }

  /**
   Two servers that want a credential and clash, such as two on one uncovered host with
   different credentials: the written config differs with which of them comes first, whatever
   else there is.
   */
  lemma ConflictingRefsDependOnOrder(
      creds: seq<Credential>, s: seq<McpServer>, t: seq<McpServer>, webSearch: Option<string>, builtins: seq<Builtin>)
    requires s != [] && t != [] && SameServers(s, t) && FirstMissing(creds, s).None?
    requires Clash(creds, true, Base(creds, webSearch, builtins).covered, s[0], t[0])
    ensures var (g, h) := (Generate(creds, s, webSearch, builtins), Generate(creds, t, webSearch, builtins));
            g.Ok? && h.Ok? && RoutesIn(g.value) != RoutesIn(h.value)
  {
    var r := McpRoute(creds, t[0]);
    LowerIdempotent(t[0].host);
    FirstServerDecides(creds, s, webSearch, builtins, r);
    FirstServerDecides(creds, t, webSearch, builtins, r);
    CountsDiffer(creds, s, t, webSearch, builtins, r);
  }

  /** The same for two servers without a credential, where the credential pass is settled. */
  lemma ClashingPassthroughsDependOnOrder(
      creds: seq<Credential>, s: seq<McpServer>, t: seq<McpServer>, webSearch: Option<string>, builtins: seq<Builtin>)
    requires s != [] && t != [] && SameServers(s, t) && FirstMissing(creds, s).None?
    requires var covered := Base(creds, webSearch, builtins).covered;
             && NoClash(creds, true, covered, s)
             && Clash(creds, false, covered + FreshHosts(s, true, covered), s[0], t[0])
    ensures var (g, h) := (Generate(creds, s, webSearch, builtins), Generate(creds, t, webSearch, builtins));
            g.Ok? && h.Ok? && RoutesIn(g.value) != RoutesIn(h.value)
  {
    var base, r := Base(creds, webSearch, builtins), McpRoute(creds, t[0]);
    assert NoClash(creds, true, base.covered, t);
    NoClashApart(creds, true, base.covered, s);
    NoClashApart(creds, true, base.covered, t);
    SameFreshHosts(s, t, true, base.covered);
    LowerIdempotent(t[0].host);
    var es := ServersShape(creds, true, base, s);
    var fs := ServersShape(creds, true, base, t);
    FirstPassthroughDecides(creds, s, webSearch, builtins, r);
    FirstPassthroughDecides(creds, t, webSearch, builtins, r);
    CountsDiffer(creds, s, t, webSearch, builtins, r);
  }

  ghost predicate OrderIsIrrelevant(creds: seq<Credential>, s: seq<McpServer>, webSearch: Option<string>, builtins: seq<Builtin>)
  {
    forall t :: multiset(t) == multiset(s) ==>
      SameConfig(Generate(creds, t, webSearch, builtins), Generate(creds, s, webSearch, builtins))
  }

  lemma PermutedSame(s: seq<McpServer>, t: seq<McpServer>)
    requires multiset(s) == multiset(t)
    ensures SameServers(s, t)
  {
    assert forall x :: x in s <==> x in multiset(s);
    assert forall x :: x in t <==> x in multiset(t);
  }

  /** The same servers with one of them moved to the front. */
  lemma ToFront(s: seq<McpServer>, a: McpServer) returns (t: seq<McpServer>)
    requires a in s
    ensures multiset(t) == multiset(s) && t != [] && t[0] == a
  {
    var i :| 0 <= i < |s| && s[i] == a;
    t := [a] + (s[..i] + s[i + 1..]);
    assert s == s[..i] + ([s[i]] + s[i + 1..]);
  }

  /** Where order is irrelevant, any two orders are written alike. */
  lemma AnyTwoOrders(
      creds: seq<Credential>, s: seq<McpServer>, t: seq<McpServer>, u: seq<McpServer>, webSearch: Option<string>, builtins: seq<Builtin>)
    requires OrderIsIrrelevant(creds, s, webSearch, builtins) && multiset(t) == multiset(s) == multiset(u)
    ensures SameConfig(Generate(creds, t, webSearch, builtins), Generate(creds, u, webSearch, builtins))
  {
  }

  lemma ClashMatters(creds: seq<Credential>, s: seq<McpServer>, webSearch: Option<string>, builtins: seq<Builtin>)
    requires FirstMissing(creds, s).None? && !Harmless(creds, s, webSearch, builtins)
    ensures !OrderIsIrrelevant(creds, s, webSearch, builtins)
  {
    var covered := Base(creds, webSearch, builtins).covered;
    var withCredential := !NoClash(creds, true, covered, s);
    var taken := if withCredential then covered else covered + FreshHosts(s, true, covered);
    var a, b :| a in s && b in s && Clash(creds, withCredential, taken, a, b);
    var t := ToFront(s, a);
    var u := ToFront(s, b);
    PermutedSame(s, t);
    PermutedSame(t, u);
    SameMissing(creds, s, t);
    SameFreshHosts(s, t, true, covered);
    if withCredential {
      ConflictingRefsDependOnOrder(creds, t, u, webSearch, builtins);
    } else {
      assert NoClash(creds, true, covered, t);
      ClashingPassthroughsDependOnOrder(creds, t, u, webSearch, builtins);
    }
    if OrderIsIrrelevant(creds, s, webSearch, builtins) {
      AnyTwoOrders(creds, s, t, u, webSearch, builtins);
    }
  }

  /**
   The exact condition, for any servers: every order of the MCP servers writes the same config
   if and only if nothing is written at all, as a credential is missing, or no two servers of
   a pass stand in each other's way.
   */
  lemma OrderIrrelevantIff(creds: seq<Credential>, s: seq<McpServer>, webSearch: Option<string>, builtins: seq<Builtin>)
    ensures OrderIsIrrelevant(creds, s, webSearch, builtins)
            <==> FirstMissing(creds, s).Some? || Harmless(creds, s, webSearch, builtins)
  {
    if FirstMissing(creds, s).Some? || Harmless(creds, s, webSearch, builtins) {
      forall t | multiset(t) == multiset(s)
        ensures SameConfig(Generate(creds, t, webSearch, builtins), Generate(creds, s, webSearch, builtins))
      {
        PermutedSame(s, t);
        SameMissing(creds, s, t);
        if Harmless(creds, s, webSearch, builtins) {
          GenerateInAnyOrder(creds, s, t, webSearch, builtins);
        }
      }
    } else {
      ClashMatters(creds, s, webSearch, builtins);
    }
  }

  /******* Two walks *******/

  /** The servers with a credential, or those without, in order. */
  function Only(servers: seq<McpServer>, withCredential: bool): seq<McpServer> {
    if servers == [] then []
    else if (servers[0].credentialRef != "") == withCredential then [servers[0]] + Only(servers[1..], withCredential)
    else Only(servers[1..], withCredential)
  }

  lemma {:induction false} PassSeesOnly(creds: seq<Credential>, withCredential: bool, acc: Acc, servers: seq<McpServer>)
    ensures AddServers(creds, withCredential, acc, Only(servers, withCredential)) == AddServers(creds, withCredential, acc, servers)
    decreases |servers|
  {
    if servers != [] {
      FirstServerFirst(creds, withCredential, acc, servers);
      if (servers[0].credentialRef != "") == withCredential {
        FirstServerFirst(creds, withCredential, acc, Only(servers, withCredential));
      }
      PassSeesOnly(creds, withCredential, AddServer(creds, withCredential, acc, servers[0]), servers[1..]);
    }
  }

  lemma {:induction false} MissingSeesOnly(creds: seq<Credential>, servers: seq<McpServer>)
    ensures FirstMissing(creds, Only(servers, true)) == FirstMissing(creds, servers)
  {
    if servers != [] {
      MissingSeesOnly(creds, servers[1..]);
    }
  }

  lemma {:induction false} OnlyCounts(servers: seq<McpServer>, withCredential: bool, x: McpServer)
    ensures multiset(Only(servers, withCredential))[x] == if (x.credentialRef != "") == withCredential then multiset(servers)[x] else 0
  {
    if servers != [] {
      assert servers == [servers[0]] + servers[1..];
      OnlyCounts(servers[1..], withCredential, x);
    }
  }

  lemma {:induction false} OnlyJoined(s: seq<McpServer>, t: seq<McpServer>, withCredential: bool)
    ensures Only(Only(s, true) + Only(t, false), withCredential) == if withCredential then Only(s, true) else Only(t, false)
    decreases |s| + |t|
  {
    var joined := Only(s, true) + Only(t, false);
    if s != [] {
      OnlyJoined(s[1..], t, withCredential);
      if s[0].credentialRef != "" {
        assert joined[1..] == Only(s[1..], true) + Only(t, false);
      }
    } else {
      assert joined == Only(t, false);
      if t != [] {
        OnlyJoined(s, t[1..], withCredential);
        assert Only(s, true) + Only(t[1..], false) == Only(t[1..], false);
      }
    }
  }

  /**
   Go walks the map once for the servers with a credential and once for those without, each
   time in an order of its own.  Some one order stands for both walks, whatever they are.
   */
  lemma OneOrderForTwoWalks(s: seq<McpServer>, t: seq<McpServer>) returns (u: seq<McpServer>)
    requires multiset(s) == multiset(t)
    ensures multiset(u) == multiset(s)
    ensures forall creds :: FirstMissing(creds, u) == FirstMissing(creds, s)
    ensures forall creds, acc :: AddServers(creds, true, acc, u) == AddServers(creds, true, acc, s)
    ensures forall creds, acc :: AddServers(creds, false, acc, u) == AddServers(creds, false, acc, t)
  {
    u := Only(s, true) + Only(t, false);
    forall x ensures multiset(u)[x] == multiset(s)[x] {
      OnlyCounts(s, true, x);
      OnlyCounts(t, false, x);
    }
    OnlyJoined(s, t, true);
    OnlyJoined(s, t, false);
    forall creds ensures FirstMissing(creds, u) == FirstMissing(creds, s) {
      MissingSeesOnly(creds, u);
      MissingSeesOnly(creds, s);
    }
    forall creds, acc ensures AddServers(creds, true, acc, u) == AddServers(creds, true, acc, s) {
      PassSeesOnly(creds, true, acc, u);
      PassSeesOnly(creds, true, acc, s);
    }
    forall creds, acc ensures AddServers(creds, false, acc, u) == AddServers(creds, false, acc, t) {
      PassSeesOnly(creds, false, acc, u);
      PassSeesOnly(creds, false, acc, t);
    }
  }

  /******* An instance *******/

  /** A dotted host does harm together with a host it is a suffix of: the config is longer if the plain one comes first. */
  lemma DottedHostsDependOnOrder(
      creds: seq<Credential>, webSearch: Option<string>, builtins: seq<Builtin>, a: McpServer, b: McpServer)
    requires Wanted(a, false) && Wanted(b, false)
    requires HasPrefix(Lower(a.host), ".") && HasSuffix(Lower(b.host), Lower(a.host))
    requires !HasPrefix(Lower(b.host), ".")
    requires var covered := Base(creds, webSearch, builtins).covered;
             !DomainCovered(Lower(a.host), covered) && !DomainCovered(Lower(b.host), covered)
    ensures var (g, h) := (Generate(creds, [a, b], webSearch, builtins), Generate(creds, [b, a], webSearch, builtins));
            g.Ok? && h.Ok? && |RoutesIn(h.value)| == |RoutesIn(g.value)| + 1
  {
    var base := Base(creds, webSearch, builtins);
    PassthroughOnly(creds, base, a, b);
    PassthroughOnly(creds, base, b, a);
    DottedPass(creds, base, a, b);
    GeneratedLength(creds, [a, b], webSearch, builtins);
    GeneratedLength(creds, [b, a], webSearch, builtins);
  }

  lemma DottedPass(creds: seq<Credential>, acc: Acc, a: McpServer, b: McpServer)
    requires Wanted(a, false) && Wanted(b, false)
    requires HasPrefix(Lower(a.host), ".") && HasSuffix(Lower(b.host), Lower(a.host)) && !HasPrefix(Lower(b.host), ".")
    requires !DomainCovered(Lower(a.host), acc.covered) && !DomainCovered(Lower(b.host), acc.covered)
    ensures |AddServers(creds, false, acc, [a, b]).out| == |acc.out| + 1
    ensures |AddServers(creds, false, acc, [b, a]).out| == |acc.out| + 2
  {
    LowerIdempotent(a.host);
    LowerIdempotent(b.host);
    TwoServers(creds, false, acc, a, b);
    TwoServers(creds, false, acc, b, a);
  }

  lemma PassthroughOnly(creds: seq<Credential>, acc: Acc, a: McpServer, b: McpServer)
    requires Wanted(a, false) && Wanted(b, false)
    ensures AddServers(creds, true, acc, [a, b]) == acc && FirstMissing(creds, [a, b]).None?
  {
    TwoServers(creds, true, acc, a, b);
  }

  lemma GeneratedLength(creds: seq<Credential>, servers: seq<McpServer>, webSearch: Option<string>, builtins: seq<Builtin>)
    requires FirstMissing(creds, servers).None?
    ensures |Compiled(creds, servers, webSearch, builtins)|
            == |ExactRoutes(creds, servers, webSearch, builtins)| + |CredentialRoutes(creds, true)|
  {
    var exact, suffix := ExactRoutes(creds, servers, webSearch, builtins), CredentialRoutes(creds, true);
    RouteTheorems.EmittedOrderIsStrictWeak();
    StableSort.SortKeeps(EmittedLess(), exact);
    StableSort.SortKeeps(EmittedLess(), suffix);
    SameLength(StableSort.Sort(EmittedLess(), exact), exact);
    SameLength(StableSort.Sort(EmittedLess(), suffix), suffix);
  }

  lemma SameLength(es: seq<Emitted>, fs: seq<Emitted>)
    requires multiset(es) == multiset(fs)
    ensures |es| == |fs|
  {
    assert |es| == |multiset(es)| == |multiset(fs)| == |fs|;
  }

  lemma TwoServers(creds: seq<Credential>, withCredential: bool, acc: Acc, a: McpServer, b: McpServer)
    ensures AddServers(creds, withCredential, acc, [a, b])
            == AddServer(creds, withCredential, AddServer(creds, withCredential, acc, a), b)
  {
    var one := [a];
    assert one[..0] == [] && one[0] == a;
    assert AddServers(creds, withCredential, acc, one) == AddServer(creds, withCredential, AddServers(creds, withCredential, acc, []), a);
    assert [a, b][..1] == one;
  }
}
