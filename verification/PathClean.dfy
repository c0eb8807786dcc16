/**
 Canonical request paths.  `Clean` is Go's `path.Clean` stated on segments: empty and "."
 segments vanish and ".." removes the segment before it.
 */
module PathClean {
  import opened Strings

  function Split(p: string): seq<string>
    decreases |p|
  {
    var i := IndexOf(p, '/');
    if i == |p| then [p] else [p[..i]] + Split(p[i + 1..])
  }

  function Canon(rooted: bool, segs: seq<string>, done: seq<string>): seq<string>
    decreases |segs|
  {
    if segs == [] then done
    else
      var s := segs[0];
      var next :=
        if s == "" || s == "." then done
        else if s != ".." then done + [s]
        else if |done| > 0 && done[|done| - 1] != ".." then done[..|done| - 1]
        else if rooted then done
        else done + [s];
      Canon(rooted, segs[1..], next)
  }

  predicate Rooted(p: string) {
    p != "" && p[0] == '/'
  }

  /** The canonical segments of a path. */
  function Canonical(p: string): seq<string> {
    Canon(Rooted(p), Split(p), [])
  }

  /** Each segment preceded by a slash. */
  function Render(segs: seq<string>): string {
    if segs == [] then "" else "/" + segs[0] + Render(segs[1..])
  }

  function Clean(p: string): string {
    var segs := Canonical(p);
    if segs == [] then (if Rooted(p) then "/" else ".")
    else if Rooted(p) then Render(segs)
    else Render(segs)[1..]
  }

  predicate IsSegment(s: string) {
    s != "" && '/' !in s
  }

  ghost predicate AllSegments(segs: seq<string>) {
    forall i :: 0 <= i < |segs| ==> IsSegment(segs[i])
  }

  lemma {:induction false} SplitHasNoSlash(p: string)
    ensures forall i :: 0 <= i < |Split(p)| ==> '/' !in Split(p)[i]
    decreases |p|
  {
    var i := IndexOf(p, '/');
    if i < |p| {
      SplitHasNoSlash(p[i + 1..]);
    }
  }

  lemma SplitAt(s: string, rest: string)
    requires '/' !in s
    ensures Split(s + ("/" + rest)) == [s] + Split(rest)
  {
    var p := s + ("/" + rest);
    assert p[|s|] == '/' && forall j | 0 <= j < |s| :: p[j] == s[j] && s[j] in s;
    assert IndexOf(p, '/') == |s| && p[|s| + 1..] == rest && p[..|s|] == s;
  }

  lemma {:induction false} CanonGivesSegments(rooted: bool, segs: seq<string>, done: seq<string>)
    requires forall i :: 0 <= i < |segs| ==> '/' !in segs[i]
    requires AllSegments(done)
    ensures AllSegments(Canon(rooted, segs, done))
    decreases |segs|
  {
    if segs != [] {
      var s := segs[0];
      var next :=
        if s == "" || s == "." then done
        else if s != ".." then done + [s]
        else if |done| > 0 && done[|done| - 1] != ".." then done[..|done| - 1]
        else if rooted then done
        else done + [s];
      CanonGivesSegments(rooted, segs[1..], next);
    }
  }

  lemma CanonicalGivesSegments(p: string)
    ensures AllSegments(Canonical(p))
  {
    SplitHasNoSlash(p);
    CanonGivesSegments(Rooted(p), Split(p), []);
  }

  /** Where a slash-free head ends is determined by the text. */
  lemma HeadSegment(x: string, ra: string, y: string, rb: string)
    requires '/' !in x && '/' !in y
    requires ra == "" || ra[0] == '/'
    requires rb != "" && rb[0] == '/'
    ensures HasPrefix(x + ra, y + rb) <==> x == y && HasPrefix(ra, rb)
  {
    var (a, b) := (x + ra, y + rb);
    assert b[|y|] == '/';
    assert |y| < |x| ==> a[|y|] == x[|y|] && x[|y|] in x;
    assert |x| < |y| ==> b[|x|] == y[|x|] && y[|x|] in y;
    assert |x| == |y| ==> a[|x|..] == ra && b[|y|..] == rb && a[..|x|] == x && b[..|y|] == y;
    if HasPrefix(a, b) {
      assert a[|y|] == '/';
      assert |x| < |a| ==> a[|x|] == ra[0];
      assert |x| == |y|;
      assert x == a[..|b|][..|x|] == y;
      assert a[..|b|][|x|..] == ra[..|rb|];
    }
    if x == y && HasPrefix(ra, rb) {
      assert a[..|b|] == x + ra[..|rb|];
    }
  }

  lemma SlashPrefix(a: string, b: string)
    ensures HasPrefix("/" + a, "/" + b) <==> HasPrefix(a, b)
  {
    if |b| <= |a| {
      assert ("/" + a)[..|b| + 1] == "/" + a[..|b|];
      assert ("/" + a[..|b|])[1..] == a[..|b|] && ("/" + b)[1..] == b;
    }
  }

  lemma {:induction false} RenderPrefix(a: seq<string>, b: seq<string>)
    requires AllSegments(a) && AllSegments(b)
    ensures HasPrefix(Render(a), Render(b) + "/") <==> |b| < |a| && a[..|b|] == b
    decreases |b|
  {
    if a == [] {
      assert |Render(b) + "/"| > |Render(a)|;
    } else if b == [] {
      assert Render(b) + "/" == "/";
      assert Render(a)[..1] == "/";
    } else {
      var (ra, rb) := (Render(a[1..]), Render(b[1..]) + "/");
      assert Render(a) == "/" + (a[0] + ra);
      assert Render(b) + "/" == "/" + (b[0] + rb);
      var (ta, tb) := (a[0] + ra, b[0] + rb);
      SlashPrefix(ta, tb);
      assert rb[0] == '/';
      HeadSegment(a[0], ra, b[0], rb);
      RenderPrefix(a[1..], b[1..]);
      if |b| < |a| {
        assert a[..|b|] == [a[0]] + a[1..][..|b| - 1];
        assert b == [b[0]] + b[1..];
      }
    }
  }

  lemma RenderInjective(a: seq<string>, b: seq<string>)
    requires AllSegments(a) && AllSegments(b) && Render(a) == Render(b)
    ensures a == b
  {
    var (a', b') := (a + ["x"], b + ["x"]);
    RenderAppend(a, "x");
    RenderAppend(b, "x");
    assert Render(a') == Render(b');
    RenderPrefix(a', b);
    RenderPrefix(b', a);
    assert Render(a')[..|Render(b)| + 1] == Render(b) + "/";
    assert Render(b')[..|Render(a)| + 1] == Render(a) + "/";
    assert |a| == |b|;
    assert a'[..|b|] == a;
  }

  lemma {:induction false} RenderAppend(a: seq<string>, x: string)
    ensures Render(a + [x]) == Render(a) + "/" + x
  {
    if a == [] {
      assert a + [x] == [x];
      assert [x][1..] == [];
    } else {
      assert (a + [x])[1..] == a[1..] + [x];
      RenderAppend(a[1..], x);
    }
  }
}
