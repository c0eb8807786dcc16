/** Workspace paths told by their segments: which are refused, and what their keys look like. */
module WorkspaceMeaning {
  import opened Basics
  import opened Strings
  import opened PathClean
  import opened PathMeaning
  import opened Workspace

  /** The segments, each behind two dashes. */
  function Dashed(segs: seq<string>): string {
    if segs == [] then "" else "--" + segs[0] + Dashed(segs[1..])
  }

  lemma {:induction false} SegmentStays(s: string)
    requires '/' !in s
    ensures Encode(s) == s
    decreases |s|
  {
    if s != "" {
      assert s[0] in s;
      SegmentStays(s[1..]);
      assert s == [s[0]] + s[1..];
    }
  }

  lemma {:induction false} EncodeRendered(segs: seq<string>)
    requires Writable(segs)
    ensures Encode(Render(segs)) == Dashed(segs)
  {
    if segs == [] {
      assert Render(segs) == "";
    } else {
      var rest := Render(segs[1..]);
      EncodeRendered(segs[1..]);
      EncodeConcat("/" + segs[0], rest);
      EncodeConcat("/", segs[0]);
      SegmentStays(segs[0]);
      assert Encode("/") == "--";
    }
  }

  /** The key of a path is "_ws_" and its segments with two dashes between them. */
  lemma KeyOfText(segs: seq<string>)
    requires segs != [] && Writable(segs)
    ensures Key(Text(false, segs)) == "_ws_" + Dashed(segs)[2..]
  {
    EncodeRendered(segs);
    var p := Render(segs);
    assert p == "/" + p[1..] by {
      assert p == "/" + (segs[0] + Render(segs[1..]));
    }
    EncodeConcat("/", p[1..]);
    assert Encode("/") == "--";
  }

  /** A relative path that leads to one of the directories an operator-managed skill owns, or below it. */
  predicate Leads(segs: seq<string>, skill: string) {
    |segs| >= 2 && segs[0] == "skills" && segs[1] == skill
  }

  lemma SkillDirectory(p: string, skill: string)
    requires p != "" && p[0] != '/' && IsSegment(skill)
    ensures InSkill(Clean(p), skill) <==> Leads(Canonical(p), skill)
  {
    var c, d := Canonical(p), ["skills", skill];
    CanonicalGivesSegments(p);
    assert IsSegment("skills") && AllSegments(d);
    RenderPrefix(c, d);
    RenderTwo(skill);
    if c == [] {
      assert !HasPrefix(".", "skills/" + skill + "/");
    } else {
      var t := Render(c)[1..];
      assert Render(c) == "/" + t by {
        assert Render(c) == "/" + (c[0] + Render(c[1..]));
      }
      assert Render(d) + "/" == "/" + ("skills/" + skill + "/");
      SlashPrefix(t, "skills/" + skill + "/");
      if t == "skills/" + skill {
        RenderInjective(c, d);
      }
    }
  }

  lemma RenderTwo(skill: string)
    ensures Render(["skills", skill]) == "/" + ("skills/" + skill)
  {
    var d := ["skills", skill];
    assert d[1..] == [skill] && [skill][1..] == [];
    assert Render([skill]) == "/" + skill;
    assert "/" + "skills" == "/skills" && "skills" + "/" == "skills/";
  }

  /**
   Of the paths that are neither empty nor absolute and have no ".." and no "--", exactly those
   that lead into "skills/platform" or "skills/kubernetes" are refused, dots and empty segments
   on the way not counted.
   */
  lemma RefusedMeans(p: string)
    requires p != "" && p[0] != '/' && !Contains(p, "..") && !Contains(p, "--")
    ensures Refused(p) == Some(PlatformSkill) <==> Leads(Canonical(p), "platform")
    ensures Refused(p) == Some(KubernetesSkill) <==> Leads(Canonical(p), "kubernetes")
    ensures Refused(p).None? <==> !Leads(Canonical(p), "platform") && !Leads(Canonical(p), "kubernetes")
  {
    assert '/' !in "platform" && '/' !in "kubernetes";
    SkillDirectory(p, "platform");
    SkillDirectory(p, "kubernetes");
  }

  /** The other refusals, in the order in which they are looked for. */
  lemma RefusedFirst(p: string)
    ensures Refused(p) == Some(Empty) <==> p == ""
    ensures Refused(p) == Some(Absolute) <==> p != "" && p[0] == '/'
    ensures Refused(p) == Some(DotDot) <==> p != "" && p[0] != '/' && exists a, b :: p == a + ".." + b
    ensures Refused(p) == Some(ReservedDelimiter) <==>
            p != "" && p[0] != '/' && (forall a, b :: p != a + ".." + b) && exists a, b :: p == a + "--" + b
  {
    ContainsMeans(p, "..");
    ContainsMeans(p, "--");
  }

  lemma PrefixOfJoined(sub: string, b: string)
    ensures HasPrefix(sub + b, sub)
  {
    assert (sub + b)[..|sub|] == sub;
  }

  /** `strings.Contains`. */
  lemma {:induction false} ContainsMeans(s: string, sub: string)
    ensures Contains(s, sub) <==> exists a, b :: s == a + sub + b
    decreases |s|
  {
    if HasPrefix(s, sub) {
      assert s == "" + sub + s[|sub|..];
    } else if s != "" {
      ContainsMeans(s[1..], sub);
      if a, b :| s[1..] == a + sub + b {
        assert s == [s[0]] + s[1..];
        assert s == ([s[0]] + a) + sub + b;
      }
    }
    forall a, b | s == a + sub + b ensures Contains(s, sub) {
      if a == "" {
        assert s == sub + b;
        PrefixOfJoined(sub, b);
      } else {
        assert s[1..] == a[1..] + sub + b;
        if !HasPrefix(s, sub) {
          ContainsMeans(s[1..], sub);
        }
      }
    }
  }

  /** A skill directory written with dots and doubled slashes is refused all the same. */
  lemma DottedSpellingIsRefused(a: seq<string>, b: seq<string>)
    requires forall s | s in a :: s == "." || s == ""
    requires AllOrdinary(b) && Sensible(false, a + ["skills", "platform"] + b)
    ensures Leads(Canonical(Text(false, a + ["skills", "platform"] + b)), "platform")
  {
    var m := ["skills", "platform"];
    CanonicalOfText(false, a + m + b);
    CanonThree(false, a, m, b);
    DotsVanish(a);
    assert AllOrdinary(m);
    OrdinaryStay(false, m, []);
    OrdinaryStay(false, b, m);
    assert [] + m == m;
  }

  lemma {:induction false} DotsVanish(a: seq<string>)
    requires forall s | s in a :: s == "." || s == ""
    ensures Canon(false, a, []) == []
  {
    if a != [] {
      assert a[0] in a && forall s | s in a[1..] :: s in a;
      DotsVanish(a[1..]);
    }
  }

  /** A relative path of nothing but dots and doubled slashes is the current directory. */
  lemma NothingIsDot(a: seq<string>)
    requires Sensible(false, a) && forall s | s in a :: s == "." || s == ""
    ensures Clean(Text(false, a)) == "."
  {
    CanonicalOfText(false, a);
    DotsVanish(a);
  }
}
