/**
 Choosing among routes, for any test of which entries match and which routes apply.  The
 proxy instantiates the tests with its path and domain rules.
 */
module Selection {
  import opened Basics
  import opened Routes
  import opened Strings

  /** Precedence of a route's domain: host with port, then bare host, then suffix. */
  datatype Tier = PortExact | Exact | Suffix

  /** Indices below `n` of the routes of one tier, in order. */
  function TierIndices(routes: seq<Route>, tierOf: Route -> Option<Tier>, tier: Tier, n: nat): (r: seq<nat>)
    requires n <= |routes|
    ensures forall k :: 0 <= k < |r| ==> r[k] < n && tierOf(routes[r[k]]) == Some(tier)
    ensures forall i: nat :: i < n && tierOf(routes[i]) == Some(tier) ==> i in r
  {
    if n == 0 then []
    else if tierOf(routes[n - 1]) == Some(tier) then TierIndices(routes, tierOf, tier, n - 1) + [n - 1]
    else TierIndices(routes, tierOf, tier, n - 1)
  }

  ghost predicate Ascending(ms: seq<nat>) {
    forall j, k :: 0 <= j < k < |ms| ==> ms[j] < ms[k]
  }

  lemma {:induction false} IndicesAscend(routes: seq<Route>, tierOf: Route -> Option<Tier>, tier: Tier, n: nat)
    requires n <= |routes|
    ensures Ascending(TierIndices(routes, tierOf, tier, n))
  {
    if n > 0 {
      IndicesAscend(routes, tierOf, tier, n - 1);
      var init := TierIndices(routes, tierOf, tier, n - 1);
      var r := TierIndices(routes, tierOf, tier, n);
      assert r == init || r == init + [n - 1];
    }
  }

  /** The routes of the highest tier that has any. */
  function TopTier(routes: seq<Route>, tierOf: Route -> Option<Tier>): (ms: seq<nat>)
    ensures IndicesOf(ms, routes)
  {
    var portExact := TierIndices(routes, tierOf, PortExact, |routes|);
    var exact := TierIndices(routes, tierOf, Exact, |routes|);
    if portExact != [] then portExact
    else if exact != [] then exact
    else TierIndices(routes, tierOf, Suffix, |routes|)
  }

  method TopTierRoutes(routes: seq<Route>, tierOf: Route -> Option<Tier>) returns (ms: seq<nat>)
    ensures ms == TopTier(routes, tierOf)
  {
    var portExact: seq<nat>, exact: seq<nat>, suffix: seq<nat> := [], [], [];
    for i := 0 to |routes|
      invariant portExact == TierIndices(routes, tierOf, PortExact, i)
      invariant exact == TierIndices(routes, tierOf, Exact, i)
      invariant suffix == TierIndices(routes, tierOf, Suffix, i)
    {
      match tierOf(routes[i]) {
        case None =>
        case Some(Suffix) => suffix := suffix + [i];
        case Some(PortExact) => portExact := portExact + [i];
        case Some(Exact) => exact := exact + [i];
      }
    }
    if |portExact| > 0 {
      return portExact;
    }
    if |exact| > 0 {
      return exact;
    }
    return suffix;
  }

  /** A chosen route belongs to a tier, and no applying route belongs to a higher one. */
  lemma TopTierIsHighest(routes: seq<Route>, tierOf: Route -> Option<Tier>, k: nat, i: nat)
    requires k < |TopTier(routes, tierOf)| && i < |routes|
    ensures var tier := tierOf(routes[TopTier(routes, tierOf)[k]]);
            && tier.Some?
            && (tierOf(routes[i]) == Some(PortExact) ==> tier == Some(PortExact))
            && (tierOf(routes[i]) == Some(Exact) ==> tier != Some(Suffix))
  {
  }

  /** Some route applies exactly when the top tier is not empty. */
  lemma TopTierNonEmpty(routes: seq<Route>, tierOf: Route -> Option<Tier>, i: nat)
    requires i < |routes| && tierOf(routes[i]).Some?
    ensures TopTier(routes, tierOf) != []
  {
    var tier := tierOf(routes[i]).value;
    assert i in TierIndices(routes, tierOf, tier, |routes|);
    match tier {
      case PortExact =>
      case Exact =>
      case Suffix =>
    }
  }

  lemma {:induction false} EmptyTier(routes: seq<Route>, tierOf: Route -> Option<Tier>, tier: Tier, n: nat)
    requires n <= |routes| && forall k :: 0 <= k < n ==> tierOf(routes[k]) != Some(tier)
    ensures TierIndices(routes, tierOf, tier, n) == []
  {
    if n > 0 {
      EmptyTier(routes, tierOf, tier, n - 1);
    }
  }

  lemma TopTierAscends(routes: seq<Route>, tierOf: Route -> Option<Tier>)
    ensures Ascending(TopTier(routes, tierOf))
  {
    IndicesAscend(routes, tierOf, PortExact, |routes|);
    IndicesAscend(routes, tierOf, Exact, |routes|);
    IndicesAscend(routes, tierOf, Suffix, |routes|);
  }

  /** Length in bytes of the longest entry that matches; zero when none does. */
  function LongestEntry(entries: seq<string>, matches: string -> bool): (n: nat)
    ensures forall i :: 0 <= i < |entries| && matches(entries[i]) ==> Bytes(entries[i]) <= n
    ensures n > 0 ==> exists i :: 0 <= i < |entries| && matches(entries[i]) && Bytes(entries[i]) == n
  {
    if entries == [] then 0
    else
      var last := |entries| - 1;
      var n := LongestEntry(entries[..last], matches);
      if matches(entries[last]) && Bytes(entries[last]) > n then Bytes(entries[last]) else n
  }

  predicate IndicesOf(ms: seq<nat>, routes: seq<Route>) {
    forall i :: 0 <= i < |ms| ==> ms[i] < |routes|
  }

  function EntryLen(routes: seq<Route>, i: nat, matches: string -> bool): nat
    requires i < |routes|
  {
    LongestEntry(routes[i].allowedPaths, matches)
  }

  /** How long the longest matching entry of each route is. */
  function Lens(routes: seq<Route>, matches: string -> bool): nat -> nat {
    (i: nat) => if i < |routes| then EntryLen(routes, i, matches) else 0
  }

  /** The first among `ms` of the greatest length, if any length is not zero. */
  function Best(ms: seq<nat>, len: nat -> nat): (r: Option<nat>)
    ensures r.Some? ==> r.value in ms && len(r.value) > 0
    ensures r.None? ==> forall k :: 0 <= k < |ms| ==> len(ms[k]) == 0
  {
    if ms == [] then None
    else
      var last := ms[|ms| - 1];
      var before := Best(ms[..|ms| - 1], len);
      if len(last) > (if before.Some? then len(before.value) else 0) then Some(last) else before
  }

  /** The first route among `ms` without path restrictions. */
  function CatchAll(routes: seq<Route>, ms: seq<nat>): (r: Option<nat>)
    requires IndicesOf(ms, routes)
    ensures r.Some? ==> r.value in ms && r.value < |routes| && routes[r.value].allowedPaths == []
    ensures r.None? ==> forall k :: 0 <= k < |ms| ==> routes[ms[k]].allowedPaths != []
  {
    if ms == [] then None
    else
      var before := CatchAll(routes, ms[..|ms| - 1]);
      if before.Some? then before
      else if routes[ms[|ms| - 1]].allowedPaths == [] then Some(ms[|ms| - 1])
      else None
  }

  /** The route for a request path among the routes `ms` of one tier. */
  function Choose(routes: seq<Route>, ms: seq<nat>, anyPath: bool, matches: string -> bool): (r: Option<nat>)
    requires IndicesOf(ms, routes)
    ensures r.Some? ==> r.value in ms && r.value < |routes|
  {
    if ms == [] then None
    else if |ms| == 1 || anyPath then assert ms[0] in ms; Some(ms[0])
    else
      var best := Best(ms, Lens(routes, matches));
      if best.Some? then best else CatchAll(routes, ms)
  }

  /** The route an entry list is searched for keeps the better of itself and the earlier best. */
  method BestOfRoute(entries: seq<string>, matches: string -> bool, i: nat, best0: Option<nat>, len0: nat)
    returns (best: Option<nat>, bestLen: nat)
    ensures var n := LongestEntry(entries, matches);
            if n > len0 then best == Some(i) && bestLen == n else best == best0 && bestLen == len0
  {
    best, bestLen := best0, len0;
    for j := 0 to |entries|
      invariant var n := LongestEntry(entries[..j], matches);
                if n > len0 then best == Some(i) && bestLen == n else best == best0 && bestLen == len0
    {
      assert entries[..j + 1][..j] == entries[..j];
      if matches(entries[j]) && Bytes(entries[j]) > bestLen {
        best := Some(i);
        bestLen := Bytes(entries[j]);
      }
    }
    assert entries[..|entries|] == entries;
  }

  lemma CatchAllSnoc(routes: seq<Route>, ms: seq<nat>, i: nat)
    requires IndicesOf(ms, routes) && i < |routes|
    ensures CatchAll(routes, ms + [i])
            == if CatchAll(routes, ms).None? && routes[i].allowedPaths == [] then Some(i) else CatchAll(routes, ms)
  {
    assert (ms + [i])[..|ms|] == ms;
  }

  lemma BestSnoc(ms: seq<nat>, i: nat, len: nat -> nat)
    ensures var best := Best(ms, len);
            Best(ms + [i], len) == if len(i) > (if best.Some? then len(best.value) else 0) then Some(i) else best
  {
    assert (ms + [i])[..|ms|] == ms;
  }

  method ChooseRoute(routes: seq<Route>, ms: seq<nat>, anyPath: bool, matches: string -> bool)
    returns (r: Option<nat>)
    requires IndicesOf(ms, routes)
    ensures r == Choose(routes, ms, anyPath, matches)
  {
    if |ms| == 0 {
      return None;
    }
    if |ms| == 1 || anyPath {
      return Some(ms[0]);
    }
    var catchAll, best := BestAndCatchAll(routes, ms, matches);
    if best.Some? {
      return best;
    }
    return catchAll;
  }

  method BestAndCatchAll(routes: seq<Route>, ms: seq<nat>, matches: string -> bool)
    returns (catchAll: Option<nat>, best: Option<nat>)
    requires IndicesOf(ms, routes)
    ensures catchAll == CatchAll(routes, ms) && best == Best(ms, Lens(routes, matches))
  {
    ghost var len := Lens(routes, matches);
    var bestLen := 0;
    catchAll, best := None, None;
    for k := 0 to |ms|
      invariant catchAll == CatchAll(routes, ms[..k])
      invariant best == Best(ms[..k], len)
      invariant bestLen == if best.Some? then len(best.value) else 0
    {
      var i := ms[k];
      var entries := routes[i].allowedPaths;
      assert ms[..k + 1] == ms[..k] + [i] && len(i) == LongestEntry(entries, matches);
      CatchAllSnoc(routes, ms[..k], i);
      BestSnoc(ms[..k], i, len);
      if |entries| == 0 {
        if catchAll.None? {
          catchAll := Some(i);
        }
      } else {
        best, bestLen := BestOfRoute(entries, matches, i, best, bestLen);
      }
    }
    assert ms[..|ms|] == ms;
  }

  /** `b` has the greatest length among `ms`, and none before position `w` is as long. */
  ghost predicate Wins(ms: seq<nat>, len: nat -> nat, b: nat, w: nat) {
    && w < |ms| && ms[w] == b
    && (forall k :: 0 <= k < |ms| ==> len(ms[k]) <= len(b))
    && (forall k :: 0 <= k < w ==> len(ms[k]) < len(b))
  }

  lemma {:induction false} BestWins(ms: seq<nat>, len: nat -> nat) returns (w: nat)
    requires Best(ms, len).Some?
    ensures Wins(ms, len, Best(ms, len).value, w)
  {
    var last := |ms| - 1;
    var init := ms[..last];
    var before := Best(init, len);
    assert forall k :: 0 <= k < last ==> ms[k] == init[k];
    if before.Some? {
      w := BestWins(init, len);
    }
    if Best(ms, len) != before || before.None? {
      w := last;
    }
  }

  /** With several routes, an entry that matches sends the request to a longest, earliest owner. */
  lemma ChooseLongest(routes: seq<Route>, ms: seq<nat>, matches: string -> bool, k: nat, e: nat)
    requires IndicesOf(ms, routes) && k < |ms| && |ms| > 1
    requires Ascending(ms)
    requires var entries := routes[ms[k]].allowedPaths; e < |entries| && matches(entries[e]) && entries[e] != ""
    ensures var len := Bytes(routes[ms[k]].allowedPaths[e]);
            var r := Choose(routes, ms, false, matches);
            && r.Some?
            && EntryLen(routes, r.value, matches) >= len
            && (EntryLen(routes, r.value, matches) == len ==> r.value <= ms[k])
  {
    assert EntryLen(routes, ms[k], matches) >= Bytes(routes[ms[k]].allowedPaths[e]) > 0;
    var w := BestWins(ms, Lens(routes, matches));
  }

  /** With several routes, some route opens the path exactly when a route is chosen that does. */
  lemma ChooseKeepsPermission(routes: seq<Route>, ms: seq<nat>, matches: string -> bool)
    requires IndicesOf(ms, routes)
    ensures var r := Choose(routes, ms, false, matches);
            (r.Some? && Opens(routes[r.value], matches)) <==>
            exists k :: 0 <= k < |ms| && Opens(routes[ms[k]], matches)
  {
    var r := Choose(routes, ms, false, matches);
    if k :| 0 <= k < |ms| && Opens(routes[ms[k]], matches) {
      assert Lens(routes, matches)(ms[k]) == EntryLen(routes, ms[k], matches);
      assert EntryLen(routes, ms[k], matches) > 0 || routes[ms[k]].allowedPaths == [];
    }
    if r.Some? && Opens(routes[r.value], matches) {
      var k :| 0 <= k < |ms| && ms[k] == r.value;
      assert Opens(routes[ms[k]], matches);
    }
  }

  /** A route is unrestricted or has a (non-empty) entry that matches. */
  predicate Opens(route: Route, matches: string -> bool) {
    route.allowedPaths == [] || LongestEntry(route.allowedPaths, matches) > 0
  }

  lemma {:induction false} CatchAllIsFirst(routes: seq<Route>, ms: seq<nat>)
    requires IndicesOf(ms, routes) && ms != [] && routes[ms[0]].allowedPaths == []
    ensures CatchAll(routes, ms) == Some(ms[0])
  {
    if |ms| > 1 {
      CatchAllIsFirst(routes, ms[..|ms| - 1]);
    }
  }

  /** Among unrestricted routes the first one is chosen for every path. */
  lemma UnrestrictedChoosesFirst(routes: seq<Route>, ms: seq<nat>, anyPath: bool, matches: string -> bool)
    requires IndicesOf(ms, routes) && ms != []
    requires forall k :: 0 <= k < |ms| ==> routes[ms[k]].allowedPaths == []
    ensures Choose(routes, ms, anyPath, matches) == Some(ms[0])
  {
    CatchAllIsFirst(routes, ms);
  }
}
