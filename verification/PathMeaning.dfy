/**
 What cleaning does to a path, told on its text: which insertions it undoes and which paths it
 leaves alone.  On rooted paths the four rules determine it.
 */
module PathMeaning {
  import opened Basics
  import opened Strings
  import opened PathClean
  import opened Routes
  import opened Selection
  import opened ProxyMatcher

  /** Segments as they may be written, "", "." and ".." included. */
  ghost predicate Writable(segs: seq<string>) {
    forall i :: 0 <= i < |segs| ==> '/' !in segs[i]
  }

  /** A segment that names something. */
  predicate Ordinary(s: string) {
    s != "" && s != "." && s != ".." && '/' !in s
  }

  ghost predicate AllOrdinary(segs: seq<string>) {
    forall i :: 0 <= i < |segs| ==> Ordinary(segs[i])
  }

  /** The path with these segments: absolute, or relative where its first segment is not empty. */
  function Text(rooted: bool, segs: seq<string>): string
    requires segs != []
  {
    if rooted then Render(segs) else Render(segs)[1..]
  }

  ghost predicate Sensible(rooted: bool, segs: seq<string>) {
    segs != [] && Writable(segs) && (rooted || segs[0] != "")
  }

  function Ups(k: nat): seq<string> {
    seq(k, i => "..")
  }

  /******* From text to segments *******/

  lemma SplitWhole(s: string)
    requires '/' !in s
    ensures Split(s) == [s]
  {
    assert forall j | 0 <= j < |s| :: s[j] in s;
  }

  lemma {:induction false} SplitOfText(segs: seq<string>)
    requires segs != [] && Writable(segs)
    ensures Render(segs) != "" && Render(segs)[0] == '/' && Split(Render(segs)[1..]) == segs
  {
    var rest := Render(segs[1..]);
    assert Render(segs) == "/" + (segs[0] + rest);
    if |segs| > 1 {
      SplitOfText(segs[1..]);
      assert rest == "/" + rest[1..];
      SplitAt(segs[0], rest[1..]);
    } else {
      assert segs[0] + rest == segs[0];
      SplitWhole(segs[0]);
    }
  }

  /** Cleaning works on the segments the text was written from. */
  lemma CanonicalOfText(rooted: bool, segs: seq<string>)
    requires Sensible(rooted, segs)
    ensures Rooted(Text(rooted, segs)) == rooted && Canonical(Text(rooted, segs)) == Canon(rooted, segs, [])
  {
    SplitOfText(segs);
    var p := Render(segs);
    if rooted {
      assert "" + ("/" + p[1..]) == p;
      SplitAt("", p[1..]);
      assert ([""] + segs)[0] == "" && ([""] + segs)[1..] == segs;
    } else {
      assert p == "/" + (segs[0] + Render(segs[1..]));
      assert p[1..][0] == segs[0][0] && segs[0][0] in segs[0];
    }
  }

  lemma CanonStep(rooted: bool, segs: seq<string>, done: seq<string>)
    requires segs != []
    ensures Canon(rooted, segs, done) == Canon(rooted, segs[1..], Canon(rooted, [segs[0]], done))
  {
    var one := [segs[0]];
    assert one[1..] == [] && one[0] == segs[0];
    assert forall d :: Canon(rooted, one[1..], d) == d;
  }

  lemma CanonicalOfAbsolute(segs: seq<string>)
    requires segs != [] && Writable(segs)
    ensures Rooted(Render(segs)) && Canonical(Render(segs)) == Canon(true, segs, [])
  {
    CanonicalOfText(true, segs);
  }

  lemma {:induction false} CanonConcat(rooted: bool, a: seq<string>, b: seq<string>, done: seq<string>)
    ensures Canon(rooted, a + b, done) == Canon(rooted, b, Canon(rooted, a, done))
    decreases |a|
  {
    if a == [] {
      assert a + b == b;
    } else {
      assert (a + b)[0] == a[0] && (a + b)[1..] == a[1..] + b;
      CanonStep(rooted, a + b, done);
      CanonStep(rooted, a, done);
      CanonConcat(rooted, a[1..], b, Canon(rooted, [a[0]], done));
    }
  }

  lemma CanonOne(rooted: bool, s: string, done: seq<string>)
    ensures (s == "" || s == ".") ==> Canon(rooted, [s], done) == done
    ensures Ordinary(s) ==> Canon(rooted, [s], done) == done + [s]
    ensures s == ".." && done == [] ==> Canon(rooted, [s], done) == if rooted then [] else [".."]
    ensures s == ".." && done != [] && done[|done| - 1] != ".." ==> Canon(rooted, [s], done) == done[..|done| - 1]
  {
    assert [s][1..] == [];
    assert done == [] ==> done + [".."] == [".."];
  }

  lemma CanonThree(rooted: bool, a: seq<string>, m: seq<string>, b: seq<string>)
    ensures Canon(rooted, a + m + b, []) == Canon(rooted, b, Canon(rooted, m, Canon(rooted, a, [])))
  {
    CanonConcat(rooted, a + m, b, []);
    CanonConcat(rooted, a, m, []);
  }

  /******* The rules *******/

  /** A segment and the ".." behind it amount to nothing. */
  lemma DotDotUndoes(rooted: bool, a: seq<string>, x: string, b: seq<string>)
    requires Sensible(rooted, a + [x, ".."] + b) && Ordinary(x) && (rooted || a != [])
    ensures Sensible(rooted, a + ["."] + b)
    ensures Canonical(Text(rooted, a + [x, ".."] + b)) == Canonical(Text(rooted, a + ["."] + b))
  {
    var (s, t) := (a + [x, ".."] + b, a + ["."] + b);
    WritableParts(a, [x, ".."], b);
    WritableJoined(a, ["."], b);
    assert a != [] ==> s[0] == a[0] == t[0];
    var done := Canon(rooted, a, []);
    assert [x, ".."] == [x] + [".."] && (done + [x])[..|done|] == done;
    CanonConcat(rooted, [x], [".."], done);
    CanonOne(rooted, x, done);
    CanonOne(rooted, "..", done + [x]);
    CanonOne(rooted, ".", done);
    CanonThree(rooted, a, [x, ".."], b);
    CanonThree(rooted, a, ["."], b);
    CanonicalOfText(rooted, s);
    CanonicalOfText(rooted, t);
  }

  /** Empty segments and "." vanish. */
  lemma DotVanishes(rooted: bool, a: seq<string>, s: string, b: seq<string>)
    requires (s == "" || s == ".") && Sensible(rooted, a + [s] + b) && Sensible(rooted, a + b)
    ensures Canonical(Text(rooted, a + [s] + b)) == Canonical(Text(rooted, a + b))
  {
    CanonOne(rooted, s, Canon(rooted, a, []));
    CanonThree(rooted, a, [s], b);
    CanonConcat(rooted, a, b, []);
    CanonicalOfText(rooted, a + [s] + b);
    CanonicalOfText(rooted, a + b);
  }

  lemma FirstSegment(rooted: bool, x: string, b: seq<string>)
    requires Writable(b) && x in {".", ".."}
    ensures Canonical(Text(rooted, [x] + b)) == Canon(rooted, b, if x == ".." && !rooted then [".."] else [])
  {
    WritableJoined([], [x], b);
    assert [] + [x] + b == [x] + b;
    CanonOne(rooted, x, []);
    CanonConcat(rooted, [x], b, []);
    CanonicalOfText(rooted, [x] + b);
  }

  /** At the root ".." leads nowhere; a relative path keeps it. */
  lemma LeadingDotDot(b: seq<string>)
    requires Writable(b)
    ensures Canonical(Render([".."] + b)) == Canonical(Render(["."] + b))
    ensures AllOrdinary(b) ==> Canonical(Text(false, [".."] + b)) == [".."] + b
  {
    FirstSegment(true, "..", b);
    FirstSegment(true, ".", b);
    FirstSegment(false, "..", b);
    if AllOrdinary(b) {
      OrdinaryStay(false, b, [".."]);
    }
  }

  lemma {:induction false} OrdinaryStay(rooted: bool, segs: seq<string>, done: seq<string>)
    requires AllOrdinary(segs)
    ensures Canon(rooted, segs, done) == done + segs
    decreases |segs|
  {
    if segs != [] {
      OrdinaryStay(rooted, segs[1..], done + [segs[0]]);
      assert done + [segs[0]] + segs[1..] == done + segs;
    }
  }

  /** A path of ordinary segments is clean already. */
  lemma OrdinaryIsClean(rooted: bool, segs: seq<string>)
    requires segs != [] && AllOrdinary(segs)
    ensures Canonical(Text(rooted, segs)) == segs && Clean(Text(rooted, segs)) == Text(rooted, segs)
  {
    CanonicalOfText(rooted, segs);
    OrdinaryStay(rooted, segs, []);
    assert [] + segs == segs;
  }

  /** Nothing but slashes and dots is the root. */
  lemma RootIsClean(s: string)
    requires s == "" || s == "." || s == ".."
    ensures Canonical("/" + s) == [] && Clean("/" + s) == "/"
  {
    assert Writable([s]);
    assert Render([s]) == "/" + s;
    CanonOne(true, s, []);
    CanonicalOfText(true, [s]);
  }

  lemma WritableParts(a: seq<string>, m: seq<string>, b: seq<string>)
    requires Writable(a + m + b)
    ensures Writable(a) && Writable(b)
  {
    var s := a + m + b;
    assert forall i :: 0 <= i < |a| ==> a[i] == s[i];
    assert forall i :: 0 <= i < |b| ==> b[i] == s[|a| + |m| + i];
  }

  lemma WritableJoined(a: seq<string>, m: seq<string>, b: seq<string>)
    requires Writable(a) && Writable(m) && Writable(b)
    ensures Writable(a + m + b)
  {
  }

  /******* Climbing *******/

  lemma {:induction false} UpsPop(done: seq<string>, k: nat)
    requires AllOrdinary(done)
    ensures Canon(true, Ups(k), done) == if k <= |done| then done[..|done| - k] else []
    decreases k
  {
    if k > 0 {
      assert Ups(k) == [".."] + Ups(k - 1);
      CanonConcat(true, [".."], Ups(k - 1), done);
      CanonOne(true, "..", done);
      var less := if done == [] then [] else done[..|done| - 1];
      UpsPop(less, k - 1);
    }
  }

  lemma ClimbWritable(e: seq<string>, k: nat, q: seq<string>)
    requires AllOrdinary(e) && AllOrdinary(q) && k > 0
    ensures e + Ups(k) + q != [] && Writable(e + Ups(k) + q)
  {
    WritableJoined(e, Ups(k), q);
    assert (e + Ups(k) + q)[|e|] == "..";
  }

  lemma ClimbSegments(e: seq<string>, k: nat, q: seq<string>)
    requires AllOrdinary(e) && AllOrdinary(q)
    ensures Canon(true, e + Ups(k) + q, []) == (if k <= |e| then e[..|e| - k] else []) + q
  {
    CanonThree(true, e, Ups(k), q);
    OrdinaryStay(true, e, []);
    assert [] + e == e;
    UpsPop(e, k);
    OrdinaryStay(true, q, if k <= |e| then e[..|e| - k] else []);
  }

  /** Climbing k segments and going down again, from wherever one was. */
  lemma ClimbMeans(e: seq<string>, k: nat, q: seq<string>)
    requires AllOrdinary(e) && AllOrdinary(q) && k > 0
    ensures Rooted(Render(e + Ups(k) + q))
    ensures Canonical(Render(e + Ups(k) + q)) == (if k <= |e| then e[..|e| - k] else []) + q
  {
    ClimbWritable(e, k, q);
    ClimbSegments(e, k, q);
    CanonicalOfAbsolute(e + Ups(k) + q);
  }

  /******* Entries on the text *******/

  lemma DirectoryEntry(e: seq<string>)
    requires e != [] && AllOrdinary(e)
    ensures var entry := Render(e) + "/"; Rooted(entry) && HasSuffix(entry, "/") && Canonical(entry) == e
  {
    RenderAppend(e, "");
    assert Render(e) + "/" + "" == Render(e) + "/";
    WritableJoined(e, [""], []);
    assert e + [""] + [] == e + [""];
    CanonicalOfText(true, e + [""]);
    OrdinaryStay(true, e, []);
    assert [] + e == e;
    CanonConcat(true, e, [""], []);
    CanonOne(true, "", e);
  }

  lemma FileEntry(e: seq<string>)
    requires e != [] && AllOrdinary(e)
    ensures Rooted(Render(e)) && !HasSuffix(Render(e), "/") && Canonical(Render(e)) == e
  {
    OrdinaryIsClean(true, e);
    SplitOfText(e);
    LastCharacter(e);
  }

  lemma {:induction false} LastCharacter(e: seq<string>)
    requires e != [] && AllOrdinary(e)
    ensures Render(e) != "" && Render(e)[|Render(e)| - 1] != '/'
  {
    assert Render(e) == "/" + e[0] + Render(e[1..]);
    if |e| > 1 {
      LastCharacter(e[1..]);
    } else {
      assert e[0][|e[0]| - 1] in e[0];
    }
  }

  /** An entry that ends with a slash admits the directory and all below it; any other entry admits itself alone. */
  lemma EntryAdmits(p: seq<string>, e: seq<string>)
    requires p != [] && e != [] && AllOrdinary(p) && AllOrdinary(e)
    ensures PathEntryMatches(Render(p), Render(e) + "/") <==> e <= p
    ensures PathEntryMatches(Render(p), Render(e)) <==> e == p
  {
    FileEntry(p);
    FileEntry(e);
    DirectoryEntry(e);
    PathEntryMeaning(Render(p), Render(e) + "/");
    PathEntryMeaning(Render(p), Render(e));
  }

  /** The root entry admits the root alone. */
  lemma RootEntryAdmits(p: seq<string>)
    requires AllOrdinary(p)
    ensures PathEntryMatches("/", "/") && (p != [] ==> !PathEntryMatches(Render(p), "/"))
  {
    RootIsClean("");
    assert "/" + "" == "/";
    PathEntryMeaning("/", "/");
    if p != [] {
      FileEntry(p);
      PathEntryMeaning(Render(p), "/");
    }
  }

  /** A path that climbs out of the entry's directory is not admitted, unless it comes back. */
  lemma ClimbingOutIsRefused(e: seq<string>, k: nat, q: seq<string>)
    requires e != [] && AllOrdinary(e) && AllOrdinary(q) && k > 0
    ensures PathEntryMatches(Render(e + Ups(k) + q), Render(e) + "/") <==> e <= (if k <= |e| then e[..|e| - k] else []) + q
  {
    ClimbMeans(e, k, q);
    DirectoryEntry(e);
    PathEntryMeaning(Render(e + Ups(k) + q), Render(e) + "/");
  }

  /******* Allowed paths *******/

  /** An entry written with ordinary segments, as a directory or not. */
  ghost predicate PlainEntry(entry: string) {
    exists e :: e != [] && AllOrdinary(e) && (entry == Render(e) || entry == Render(e) + "/")
  }

  /** Some directory entry holds the path. */
  ghost predicate BelowEntry(p: seq<string>, entries: seq<string>) {
    exists n :: 0 < n <= |p| && Render(p[..n]) + "/" in entries
  }

  /** A restricted route admits the paths it lists and what lies in the directories it lists; an unrestricted one all. */
  lemma AllowedMeans(route: Route, p: seq<string>)
    requires p != [] && AllOrdinary(p) && forall i :: 0 <= i < |route.allowedPaths| ==> PlainEntry(route.allowedPaths[i])
    ensures PathAllowed(route, Render(p)) <==>
              route.allowedPaths == [] || Render(p) in route.allowedPaths || BelowEntry(p, route.allowedPaths)
  {
    var entries := route.allowedPaths;
    if i :| 0 <= i < |entries| && PathEntryMatches(Render(p), entries[i]) {
      EntryHolds(p, entries, i);
    }
    if Render(p) in entries {
      EntryAdmits(p, p);
      var i :| 0 <= i < |entries| && entries[i] == Render(p);
    }
    if BelowEntry(p, entries) {
      var n :| 0 < n <= |p| && Render(p[..n]) + "/" in entries;
      EntryAdmits(p, p[..n]);
      var i :| 0 <= i < |entries| && entries[i] == Render(p[..n]) + "/";
    }
  }

  lemma EntryHolds(p: seq<string>, entries: seq<string>, i: nat)
    requires p != [] && AllOrdinary(p) && i < |entries| && PlainEntry(entries[i]) && PathEntryMatches(Render(p), entries[i])
    ensures Render(p) in entries || BelowEntry(p, entries)
  {
    var e :| e != [] && AllOrdinary(e) && (entries[i] == Render(e) || entries[i] == Render(e) + "/");
    EntryAdmits(p, e);
    assert entries[i] in entries;
    if entries[i] == Render(e) + "/" {
      assert p[..|e|] == e;
    }
  }

  /** The proxy passes such a request exactly if some route of the highest tier admits it in this sense. */
  lemma AdmittedMeans(routes: seq<Route>, host: string, p: seq<string>)
    requires p != [] && AllOrdinary(p)
    requires forall k, i :: 0 <= k < |routes| && 0 <= i < |routes[k].allowedPaths| ==> PlainEntry(routes[k].allowedPaths[i])
    ensures Admitted(routes, host, Render(p)) <==>
              exists k :: 0 <= k < |Matching(routes, host)| &&
                (var entries := routes[Matching(routes, host)[k]].allowedPaths;
                 entries == [] || Render(p) in entries || BelowEntry(p, entries))
  {
    FileEntry(p);
    AdmittedIffTierAllows(routes, host, Render(p));
    var ms := Matching(routes, host);
    forall k | 0 <= k < |ms|
      ensures var entries := routes[ms[k]].allowedPaths;
              PathAllowed(routes[ms[k]], Render(p)) <==> entries == [] || Render(p) in entries || BelowEntry(p, entries)
    {
      AllowedMeans(routes[ms[k]], p);
    }
  }

  /** One step out of the directory and into another. */
  lemma SiblingIsRefused(d: string, x: string)
    requires Ordinary(d) && Ordinary(x)
    ensures PathEntryMatches("/" + d + "/../" + x, "/" + d + "/") <==> x == d
  {
    ClimbingOutIsRefused([d], 1, [x]);
    SiblingText(d, x);
    assert [d][..0] + [x] == [x];
    assert [d] <= [x] <==> x == d;
  }

  lemma SiblingText(d: string, x: string)
    ensures Render([d] + Ups(1) + [x]) == "/" + d + "/../" + x && Render([d]) + "/" == "/" + d + "/"
  {
    assert Ups(1) == [".."] && [d] + Ups(1) + [x] == [d, "..", x];
    RenderOfThree(d, "..", x);
    assert [d][1..] == [];
    assert Render([d]) == "/" + d + "" == "/" + d;
    assert "/" + d + "/../" + x == "/" + d + ("/" + ".." + ("/" + x));
  }

  lemma RenderOfThree(a: string, b: string, c: string)
    ensures Render([a, b, c]) == "/" + a + ("/" + b + ("/" + c))
  {
    assert [a, b, c][1..] == [b, c] && [b, c][1..] == [c] && [c][1..] == [];
    assert Render([c]) == "/" + c + "" == "/" + c;
    assert Render([b, c]) == "/" + b + Render([c]);
    assert Render([a, b, c]) == "/" + a + Render([b, c]);
  }
}
