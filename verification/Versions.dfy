/** Calendar versions, their order, and the high-water mark of deployed versions. */
module Versions {
  import opened Basics
  import opened Strings

  /******* Parsing *******/

  /** Decimal value of a string of digits; None for anything else. */
  function Decimal(s: string): Option<nat> {
    if s == "" then Some(0)
    else
      var c, init := s[|s| - 1], Decimal(s[..|s| - 1]);
      if '0' <= c <= '9' && init.Some? then Some(10 * init.value + (c as int - '0' as int)) else None
  }

  /** `strconv.Atoi` with 64-bit integers. */
  function Atoi(s: string): Option<int> {
    var signed := s != "" && (s[0] == '-' || s[0] == '+');
    var digits := if signed then s[1..] else s;
    if digits == "" then None
    else match Decimal(digits)
      case None => None
      case Some(n) =>
        var v := if signed && s[0] == '-' then -(n as int) else n as int;
        if -0x8000_0000_0000_0000 <= v < 0x8000_0000_0000_0000 then Some(v) else None
  }

  function SplitDots(s: string): (parts: seq<string>)
    ensures parts != []
    decreases |s|
  {
    var i := IndexOf(s, '.');
    if i == |s| then [s] else [s[..i]] + SplitDots(s[i + 1..])
  }

  function Numbers(parts: seq<string>): (r: seq<Option<int>>)
    ensures |r| == |parts|
    ensures forall i | 0 <= i < |parts| :: r[i] == Atoi(parts[i])
  {
    seq(|parts|, i requires 0 <= i < |parts| => Atoi(parts[i]))
  }

  function Parse(version: string): seq<Option<int>> {
    Numbers(SplitDots(version))
  }

  /** Every dotted part is an integer. */
  predicate WellFormed(version: string) {
    forall i | 0 <= i < |Parse(version)| :: Parse(version)[i].Some?
  }

  /******* Comparison *******/

  /** A part that is there is a number. */
  predicate Good(xs: seq<Option<int>>, i: nat) {
    i < |xs| ==> xs[i].Some?
  }

  /** Missing parts count as zero. */
  function At(xs: seq<Option<int>>, i: nat): int {
    if i < |xs| && xs[i].Some? then xs[i].value else 0
  }

  function CompareFrom(xs: seq<Option<int>>, ys: seq<Option<int>>, i: nat): Option<int>
    decreases |xs| + |ys| - i
  {
    if i >= |xs| && i >= |ys| then Some(0)
    else if !Good(xs, i) || !Good(ys, i) then None
    else if At(xs, i) < At(ys, i) then Some(-1)
    else if At(xs, i) > At(ys, i) then Some(1)
    else CompareFrom(xs, ys, i + 1)
  }

  /** -1, 0 or 1, or None where a part that matters is malformed. */
  function Compare(a: string, b: string): Option<int> {
    CompareFrom(Parse(a), Parse(b), 0)
  }

  /** `compareCalver`. */
  method CompareCalver(a: string, b: string) returns (order: int, ok: bool)
    ensures (if ok then Some(order) else None) == Compare(a, b)
  {
    var aParts, bParts := SplitDots(a), SplitDots(b);
    var maxLen := |aParts|;
    if |bParts| > maxLen {
      maxLen := |bParts|;
    }
    for i := 0 to maxLen
      invariant CompareFrom(Parse(a), Parse(b), i) == Compare(a, b)
    {
      var aVal, bVal := 0, 0;
      if i < |aParts| {
        var parsed := Atoi(aParts[i]);
        if parsed.None? {
          return 0, false;
        }
        aVal := parsed.value;
      }
      if i < |bParts| {
        var parsed := Atoi(bParts[i]);
        if parsed.None? {
          return 0, false;
        }
        bVal := parsed.value;
      }
      if aVal < bVal {
        return -1, true;
      }
      if aVal > bVal {
        return 1, true;
      }
    }
    return 0, true;
  }

  ghost predicate AgreeBetween(xs: seq<Option<int>>, ys: seq<Option<int>>, from: nat, i: nat) {
    forall k | from <= k < i :: Good(xs, k) && Good(ys, k) && At(xs, k) == At(ys, k)
  }

  lemma {:induction false} FirstDifference(xs: seq<Option<int>>, ys: seq<Option<int>>, from: nat) returns (i: nat)
    ensures from <= i && AgreeBetween(xs, ys, from, i)
    ensures match CompareFrom(xs, ys, from)
            case None => !Good(xs, i) || !Good(ys, i)
            case Some(c) =>
              && Good(xs, i) && Good(ys, i)
              && (if At(xs, i) < At(ys, i) then c == -1
                  else if At(xs, i) > At(ys, i) then c == 1
                  else c == 0 && i >= |xs| && i >= |ys|)
    decreases |xs| + |ys| - from
  {
    i := from;
    if !(from >= |xs| && from >= |ys|) && Good(xs, from) && Good(ys, from) && At(xs, from) == At(ys, from) {
      i := FirstDifference(xs, ys, from + 1);
    }
  }

  /**
   The comparison is lexicographic on the integers, missing parts counting as zero: the
   first part that differs decides, and a malformed part matters only if it comes no later.
   */
  lemma ComparisonMeaning(a: string, b: string) returns (i: nat)
    ensures var xs, ys := Parse(a), Parse(b);
            && AgreeBetween(xs, ys, 0, i)
            && match Compare(a, b)
               case None => !Good(xs, i) || !Good(ys, i)
               case Some(c) =>
                 && Good(xs, i) && Good(ys, i)
                 && (if At(xs, i) < At(ys, i) then c == -1
                     else if At(xs, i) > At(ys, i) then c == 1
                     else c == 0 && forall k: nat :: At(xs, k) == At(ys, k))
  {
    i := FirstDifference(Parse(a), Parse(b), 0);
  }

  lemma {:induction false} Defined(xs: seq<Option<int>>, ys: seq<Option<int>>, i: nat)
    requires forall k | 0 <= k < |xs| :: xs[k].Some?
    requires forall k | 0 <= k < |ys| :: ys[k].Some?
    ensures CompareFrom(xs, ys, i).Some?
    decreases |xs| + |ys| - i
  {
    if !(i >= |xs| && i >= |ys|) && At(xs, i) == At(ys, i) {
      Defined(xs, ys, i + 1);
    }
  }

  function Negated(c: Option<int>): Option<int> {
    if c.Some? then Some(-c.value) else None
  }

  /** Swapping the two sides swaps the answer, on malformed versions too. */
  lemma {:induction false} Swapped(xs: seq<Option<int>>, ys: seq<Option<int>>, i: nat)
    ensures CompareFrom(ys, xs, i) == Negated(CompareFrom(xs, ys, i))
    decreases |xs| + |ys| - i
  {
    if !(i >= |xs| && i >= |ys|) && Good(xs, i) && Good(ys, i) && At(xs, i) == At(ys, i) {
      Swapped(xs, ys, i + 1);
    }
  }

  ghost predicate AtMost(c: Option<int>) {
    c.Some? && c.value <= 0
  }

  /** The comparison is transitive, on malformed versions too. */
  lemma {:induction false} Chain(xs: seq<Option<int>>, ys: seq<Option<int>>, zs: seq<Option<int>>, i: nat)
    requires AtMost(CompareFrom(xs, ys, i)) && AtMost(CompareFrom(ys, zs, i))
    ensures AtMost(CompareFrom(xs, zs, i))
    ensures CompareFrom(xs, ys, i) == Some(-1) || CompareFrom(ys, zs, i) == Some(-1) ==> CompareFrom(xs, zs, i) == Some(-1)
    decreases |xs| + |ys| + |zs| - i
  {
    Beyond(xs, ys, i);
    Beyond(ys, zs, i);
    if !(i >= |xs| && i >= |ys| && i >= |zs|) && At(xs, i) == At(ys, i) == At(zs, i) {
      Beyond(xs, zs, i);
      Chain(xs, ys, zs, i + 1);
    }
  }

  /** Past both ends everything is equal, so one step of the comparison can always be taken. */
  lemma Beyond(xs: seq<Option<int>>, ys: seq<Option<int>>, i: nat)
    ensures Good(xs, i) && Good(ys, i) && At(xs, i) == At(ys, i) ==> CompareFrom(xs, ys, i) == CompareFrom(xs, ys, i + 1)
    ensures CompareFrom(xs, ys, i).Some? ==> Good(xs, i) && Good(ys, i)
  {
  }

  /** Whether version a is no later than b. */
  ghost predicate Leq(a: string, b: string) {
    AtMost(Compare(a, b))
  }

  /** The order is transitive on all strings; on well-formed versions it is reflexive and total as well. */
  lemma VersionsAreTotallyPreordered(a: string, b: string, c: string)
    ensures Leq(a, b) && Leq(b, c) ==> Leq(a, c)
    ensures WellFormed(a) ==> Leq(a, a)
    ensures WellFormed(a) && WellFormed(b) ==>
            (Leq(a, b) || Leq(b, a)) && Compare(a, b).Some? && (Compare(a, b) == Some(-1) <==> !Leq(b, a))
  {
    Swapped(Parse(a), Parse(a), 0);
    Swapped(Parse(a), Parse(b), 0);
    OneOfThree(Parse(a), Parse(b), 0);
    if WellFormed(a) {
      Defined(Parse(a), Parse(a), 0);
      if WellFormed(b) {
        Defined(Parse(a), Parse(b), 0);
      }
    }
    if Leq(a, b) && Leq(b, c) {
      Chain(Parse(a), Parse(b), Parse(c), 0);
    }
  }

  lemma {:induction false} OneOfThree(xs: seq<Option<int>>, ys: seq<Option<int>>, i: nat)
    ensures CompareFrom(xs, ys, i).Some? ==> CompareFrom(xs, ys, i).value in {-1, 0, 1}
    decreases |xs| + |ys| - i
  {
    if !(i >= |xs| && i >= |ys|) {
      OneOfThree(xs, ys, i + 1);
    }
  }

  /******* The high-water mark *******/

  datatype Status = Status(last: string, downgrade: bool)
  /** One pass of `updateStatus`: the version asked for and whether the deployments are ready. */
  datatype Pass = Pass(version: string, ready: bool)

  function Observe(st: Status, p: Pass): Status {
    var c := Compare(p.version, st.last);
    var downgrade := p.version != "" && st.last != "" && c.Some? && c.value < 0;
    if p.ready && p.version != "" && (st.last == "" || c.None? || c.value >= 0)
    then Status(p.version, downgrade)
    else Status(st.last, downgrade)
  }

  function ObserveAll(passes: seq<Pass>): Status {
    if passes == [] then Status("", false)
    else Observe(ObserveAll(passes[..|passes| - 1]), passes[|passes| - 1])
  }

  class ClawStatus {
    var lastDeployedVersion: string
    var versionDowngrade: bool

    function View(): Status
      reads this
    {
      Status(lastDeployedVersion, versionDowngrade)
    }

    method UpdateStatus(version: string, ready: bool)
      modifies this
      ensures View() == Observe(old(View()), Pass(version, ready))
    {
      var order, ok := CompareCalver(version, lastDeployedVersion);
      if version != "" && lastDeployedVersion != "" && ok && order < 0 {
        versionDowngrade := true;
      } else {
        versionDowngrade := false;
      }
      if ready && version != "" {
        order, ok := CompareCalver(version, lastDeployedVersion);
        if lastDeployedVersion == "" || !ok || order >= 0 {
          lastDeployedVersion := version;
        }
      }
    }
  }

  ghost predicate Deployed(p: Pass) {
    p.ready && p.version != ""
  }

  /** The same version, or one no later by the comparison. */
  ghost predicate NoLater(a: string, b: string) {
    a == b || Leq(a, b)
  }

  /** The mark is the latest version ever seen ready, or empty if there was none. */
  ghost predicate MarkIsMaximum(passes: seq<Pass>, mark: string) {
    && (mark == "" <==> forall i | 0 <= i < |passes| :: !Deployed(passes[i]))
    && (mark != "" ==> exists i :: 0 <= i < |passes| && Deployed(passes[i]) && passes[i].version == mark)
    && (forall i | 0 <= i < |passes| && Deployed(passes[i]) :: NoLater(passes[i].version, mark))
  }

  /** The comparison answers, or there is nothing to compare. */
  predicate Comparable(version: string, mark: string) {
    mark == "" || version == mark || Compare(version, mark).Some?
  }

  /** One pass keeps the mark from falling exactly if the version that is ready can be compared with it. */
  lemma MarkHoldsIffComparable(st: Status, p: Pass)
    requires st.last != "" && Deployed(p)
    ensures NoLater(st.last, Observe(st, p).last) <==> Comparable(p.version, st.last)
  {
    Swapped(Parse(p.version), Parse(st.last), 0);
  }

  /** At pass i the version asked for becomes ready and cannot be compared with the mark. */
  ghost predicate MeetsIncomparable(passes: seq<Pass>, i: int) {
    0 <= i < |passes| && Deployed(passes[i]) && !Comparable(passes[i].version, ObserveAll(passes[..i]).last)
  }

  ghost predicate AlwaysMaximum(passes: seq<Pass>) {
    forall i | 0 <= i <= |passes| :: MarkIsMaximum(passes[..i], ObserveAll(passes[..i]).last)
  }

  /**
   The exact condition, for every run of any version strings: the stored version is at all
   times the maximum seen ready if and only if no version that becomes ready meets a mark it
   cannot be compared with.
   */
  lemma {:induction false} HighWaterMarkIff(passes: seq<Pass>)
    ensures AlwaysMaximum(passes) <==> forall i :: !MeetsIncomparable(passes, i)
    decreases |passes|
  {
    if passes == [] {
      assert ObserveAll([]).last == "" && passes[..0] == [];
    } else {
      var init, p := passes[..|passes| - 1], passes[|passes| - 1];
      assert passes == init + [p];
      HighWaterMarkIff(init);
      OnePassMore(init, p);
      if AlwaysMaximum(init) {
        assert init[..|init|] == init;
        MarkStepIff(init, p, ObserveAll(init));
      }
    }
  }

  lemma OnePassMore(init: seq<Pass>, p: Pass)
    ensures ObserveAll(init + [p]) == Observe(ObserveAll(init), p)
    ensures AlwaysMaximum(init + [p]) <==> AlwaysMaximum(init) && MarkIsMaximum(init + [p], ObserveAll(init + [p]).last)
    ensures (forall i :: !MeetsIncomparable(init + [p], i))
            <==> (forall i :: !MeetsIncomparable(init, i)) && (!Deployed(p) || Comparable(p.version, ObserveAll(init).last))
  {
    var all, n := init + [p], |init|;
    assert all[..n] == init && all[..n + 1] == all;
    MaximumOneMore(init, p);
    assert forall i | 0 <= i < n :: all[..i] == init[..i];
    assert forall i | 0 <= i < n :: MeetsIncomparable(init, i) <==> MeetsIncomparable(all, i);
    assert MeetsIncomparable(all, n) <==> Deployed(p) && !Comparable(p.version, ObserveAll(init).last);
  }

  lemma MaximumOneMore(init: seq<Pass>, p: Pass)
    ensures AlwaysMaximum(init + [p]) <==> AlwaysMaximum(init) && MarkIsMaximum(init + [p], ObserveAll(init + [p]).last)
  {
    var all, n := init + [p], |init|;
    assert all[..n + 1] == all;
    assert forall i | 0 <= i <= n :: all[..i] == init[..i];
  }

  lemma MarkStepIff(init: seq<Pass>, p: Pass, st: Status)
    requires MarkIsMaximum(init, st.last)
    ensures MarkIsMaximum(init + [p], Observe(st, p).last) <==> !Deployed(p) || Comparable(p.version, st.last)
  {
    var passes, mark := init + [p], Observe(st, p).last;
    assert passes[|init|] == p && forall i | 0 <= i < |init| :: passes[i] == init[i];
    var w: int := -1;
    if st.last != "" {
      w :| 0 <= w < |init| && Deployed(init[w]) && init[w].version == st.last;
      assert Deployed(passes[w]);
    }
    Swapped(Parse(p.version), Parse(st.last), 0);
    if Deployed(p) {
      assert Deployed(passes[|init|]);
      if st.last != "" {
        MarkHoldsIffComparable(st, p);
      }
    }
    if !Deployed(p) || Comparable(p.version, st.last) {
      forall i | 0 <= i < |passes| && Deployed(passes[i]) ensures NoLater(passes[i].version, mark) {
        if i < |init| {
          assert Deployed(init[i]);
          VersionsAreTotallyPreordered(passes[i].version, st.last, mark);
        }
      }
    }
  }

  /** In particular where every version that becomes ready is well formed; what is asked for and never ready does not matter. */
  lemma {:induction false} HighWaterMark(passes: seq<Pass>)
    requires forall i | 0 <= i < |passes| && Deployed(passes[i]) :: WellFormed(passes[i].version)
    ensures MarkIsMaximum(passes, ObserveAll(passes).last)
    decreases |passes|
  {
    if passes != [] {
      var init, p := passes[..|passes| - 1], passes[|passes| - 1];
      HighWaterMark(init);
      assert passes == init + [p];
      var mark := ObserveAll(init).last;
      if Deployed(p) && mark != "" {
        var w :| 0 <= w < |init| && Deployed(init[w]) && init[w].version == mark;
        assert Deployed(passes[w]);
        VersionsAreTotallyPreordered(p.version, mark, mark);
      }
      MarkStepIff(init, p, ObserveAll(init));
    }
  }

  /**
   While the mark is the maximum, the downgrade condition holds exactly when an earlier ready
   version is later than the current one, whatever the current version looks like.
   */
  lemma DowngradeIffBelowEarlier(passes: seq<Pass>, p: Pass)
    requires forall i :: !MeetsIncomparable(passes, i)
    ensures ObserveAll(passes + [p]).downgrade <==>
            p.version != "" && exists i :: 0 <= i < |passes| && Deployed(passes[i]) && Compare(p.version, passes[i].version) == Some(-1)
  {
    var all := passes + [p];
    var mark := ObserveAll(passes).last;
    assert all[..|all| - 1] == passes && all[|passes|] == p;
    HighWaterMarkIff(passes);
    assert passes[..|passes|] == passes;
    assert ObserveAll(all) == Observe(ObserveAll(passes), p);
    MarkDecides(p.version, mark);
    forall i | 0 <= i < |passes| && Deployed(passes[i]) && Compare(p.version, passes[i].version) == Some(-1)
      ensures mark != "" && Compare(p.version, mark) == Some(-1)
    {
      BelowMark(p.version, passes[i].version, mark);
    }
  }

  lemma MarkDecides(version: string, mark: string)
    ensures Compare(version, mark).Some? && Compare(version, mark).value < 0 <==> Compare(version, mark) == Some(-1)
  {
    OneOfThree(Parse(version), Parse(mark), 0);
  }

  lemma BelowMark(version: string, earlier: string, mark: string)
    requires Compare(version, earlier) == Some(-1) && NoLater(earlier, mark)
    ensures Compare(version, mark) == Some(-1)
  {
    if earlier != mark {
      Chain(Parse(version), Parse(earlier), Parse(mark), 0);
    }
  }

  lemma Digit(s: string)
    requires |s| == 1 && s[0] != '.'
    ensures Parse(s) == [if '0' <= s[0] <= '9' then Some(s[0] as int - '0' as int) else None]
  {
    assert SplitDots(s) == [s];
    assert s[..|s| - 1] == "" && Decimal("") == Some(0);
    assert Parse(s)[0] == Atoi(s);
  }

  /** A version that cannot be compared wipes out the mark when it becomes ready: the later downgrade goes unnoticed. */
  lemma MalformedVersionResetsMark()
    ensures var passes := [Pass("2", true), Pass("x", true), Pass("1", true)];
            && ObserveAll(passes) == Status("1", false)
            && Compare("1", "2") == Some(-1)
  {
    var passes := [Pass("2", true), Pass("x", true), Pass("1", true)];
    Digit("1");
    Digit("2");
    Digit("x");
    assert passes[..0] == [] && ObserveAll(passes[..0]) == Status("", false);
    assert passes[..1][..0] == passes[..0];
    assert ObserveAll(passes[..1]) == Status("2", false);
    assert passes[..2][..1] == passes[..1];
    assert Compare("x", "2") == None && Compare("1", "x") == None;
    assert ObserveAll(passes[..2]) == Status("x", false);
    assert passes[..3] == passes;
  }
}
