/** What version strings mean: decimal numerals, joined with dots, compared number by number. */
module VersionNumbers {
  import opened Basics
  import opened Strings
  import opened Versions

  /******* Numerals *******/

  /** The usual decimal numeral. */
  function Print(n: nat): (s: string)
    ensures s != ""
  {
    var digit := "0123456789"[n % 10];
    if n < 10 then [digit] else Print(n / 10) + [digit]
  }

  predicate IsDigit(c: char) {
    c in "0123456789"
  }

  lemma DigitAt(d: nat)
    requires d < 10
    ensures var c := "0123456789"[d]; IsDigit(c) && '0' <= c <= '9' && (c as int) - ('0' as int) == d
  {
  }

  lemma DigitIff(c: char)
    ensures IsDigit(c) <==> '0' <= c <= '9'
  {
    if '0' <= c <= '9' {
      DigitAt((c as int) - ('0' as int));
    }
  }

  lemma {:induction false} DecimalOfPrint(n: nat)
    ensures Decimal(Print(n)) == Some(n)
  {
    DigitAt(n % 10);
    var s := Print(n);
    if n >= 10 {
      DecimalOfPrint(n / 10);
      assert s[..|s| - 1] == Print(n / 10);
    } else {
      assert s[..|s| - 1] == "";
    }
  }

  lemma {:induction false} PrintHasDigits(n: nat)
    ensures forall i | 0 <= i < |Print(n)| :: IsDigit(Print(n)[i])
  {
    DigitAt(n % 10);
    if n >= 10 {
      PrintHasDigits(n / 10);
    }
  }

  /** A string has a decimal value exactly if it has nothing but digits. */
  lemma {:induction false} DecimalIff(s: string)
    ensures Decimal(s).Some? <==> forall i | 0 <= i < |s| :: IsDigit(s[i])
  {
    if s != "" {
      DecimalIff(s[..|s| - 1]);
      DigitIff(s[|s| - 1]);
    }
  }

  lemma {:induction false} ValueIsPositive(s: string)
    requires s != "" && Decimal(s).Some? && s[0] != '0'
    ensures Decimal(s).value > 0
  {
    if |s| > 1 {
      ValueIsPositive(s[..|s| - 1]);
    }
  }

  lemma PrintSnoc(m: nat, d: nat)
    requires m > 0 && d < 10
    ensures Print(10 * m + d) == Print(m) + ["0123456789"[d]]
  {
    assert (10 * m + d) % 10 == d && (10 * m + d) / 10 == m;
  }

  lemma DigitOf(c: char) returns (d: nat)
    requires '0' <= c <= '9'
    ensures d < 10 && d == (c as int) - ('0' as int) && "0123456789"[d] == c
  {
    d := (c as int) - ('0' as int);
    DigitAt(d);
  }

  lemma OneDigit(c: char)
    requires '0' <= c <= '9'
    ensures Decimal([c]).Some? && Print(Decimal([c]).value) == [c]
  {
    var d := DigitOf(c);
    assert [c][..0] == "";
    assert Decimal([c]) == Some(d);
  }

  /** A numeral without leading zeros is the printed form of its value. */
  lemma {:induction false} PrintOfDecimal(s: string)
    requires s != "" && Decimal(s).Some? && (s[0] != '0' || |s| == 1)
    ensures Print(Decimal(s).value) == s
  {
    var init, c := s[..|s| - 1], s[|s| - 1];
    assert s == init + [c];
    if init == "" {
      assert s == [c];
      OneDigit(c);
    } else {
      var d := DigitOf(c);
      ValueIsPositive(init);
      PrintOfDecimal(init);
      PrintSnoc(Decimal(init).value, d);
    }
  }

  lemma {:induction false} LeadingZero(s: string)
    ensures Decimal("0" + s) == Decimal(s)
  {
    if s != "" {
      LeadingZero(s[..|s| - 1]);
      assert ("0" + s)[..|s|] == "0" + s[..|s| - 1];
    } else {
      assert "0"[..0] == "";
    }
  }

  /******* Signed integers *******/

  const LIMIT: int := 9223372036854775808

  predicate IsSign(c: char) {
    c == '-' || c == '+'
  }

  lemma AtoiPlain(s: string, n: nat)
    requires s != "" && !IsSign(s[0]) && Decimal(s) == Some(n)
    ensures Atoi(s) == if n < LIMIT then Some(n as int) else None
  {
  }

  lemma AtoiSigned(sign: char, s: string, n: nat)
    requires IsSign(sign) && s != "" && Decimal(s) == Some(n)
    ensures var v := if sign == '-' then -(n as int) else n as int;
            Atoi([sign] + s) == if -LIMIT <= v < LIMIT then Some(v) else None
  {
    var signed := [sign] + s;
    assert signed[0] == sign && signed[1..] == s;
  }

  /** Numerals of 64-bit integers are read as what they say, with or without a sign. */
  lemma AtoiOfPrint(n: nat)
    ensures Atoi(Print(n)) == if n < LIMIT then Some(n as int) else None
    ensures Atoi("+" + Print(n)) == if n < LIMIT then Some(n as int) else None
    ensures Atoi("-" + Print(n)) == if n <= LIMIT then Some(-(n as int)) else None
  {
    DecimalOfPrint(n);
    PrintHasDigits(n);
    DigitIff(Print(n)[0]);
    AtoiPlain(Print(n), n);
    AtoiSigned('+', Print(n), n);
    AtoiSigned('-', Print(n), n);
  }

  predicate HasOther(s: string) {
    exists i :: 0 <= i < |s| && !IsDigit(s[i])
  }

  /** Anything with a character that is no digit behind the sign, or with no digit at all, is malformed. */
  lemma AtoiMalformed(sign: char, s: string)
    requires s == "" || HasOther(s)
    ensures IsSign(sign) ==> Atoi([sign] + s).None?
    ensures s == "" || !IsSign(s[0]) ==> Atoi(s).None?
  {
    DecimalIff(s);
    assert ([sign] + s)[0] == sign && ([sign] + s)[1..] == s;
  }

  /******* Dotted numbers *******/

  function Join(parts: seq<string>): string
    requires parts != []
  {
    if |parts| == 1 then parts[0] else parts[0] + ("." + Join(parts[1..]))
  }

  lemma SplitAtDot(head: string, rest: string)
    requires '.' !in head
    ensures SplitDots(head + ("." + rest)) == [head] + SplitDots(rest)
  {
    var s := head + ("." + rest);
    assert forall i | 0 <= i < |head| :: s[i] == head[i] && head[i] in head;
    assert s[|head|] == '.' && s[|head| + 1..] == rest && s[..|head|] == head;
    assert IndexOf(s, '.') == |head|;
  }

  lemma NoDotNoSplit(s: string)
    requires '.' !in s
    ensures SplitDots(s) == [s]
  {
    assert forall i | 0 <= i < |s| :: s[i] in s;
  }

  /** Splitting undoes joining. */
  lemma {:induction false} SplitOfJoin(parts: seq<string>)
    requires parts != [] && forall i | 0 <= i < |parts| :: '.' !in parts[i]
    ensures SplitDots(Join(parts)) == parts
  {
    if |parts| > 1 {
      SplitOfJoin(parts[1..]);
      SplitAtDot(parts[0], Join(parts[1..]));
    } else {
      NoDotNoSplit(parts[0]);
    }
  }

  function Dotted(ns: seq<nat>): string
    requires ns != []
  {
    Join(Numerals(ns))
  }

  function Numerals(ns: seq<nat>): (r: seq<string>)
    ensures |r| == |ns| && forall i | 0 <= i < |ns| :: r[i] == Print(ns[i])
  {
    seq(|ns|, i requires 0 <= i < |ns| => Print(ns[i]))
  }

  lemma NoDotInPrint(n: nat)
    ensures '.' !in Print(n)
  {
    PrintHasDigits(n);
    assert !IsDigit('.');
  }

  predicate Fits(ns: seq<nat>) {
    forall i | 0 <= i < |ns| :: ns[i] < LIMIT
  }

  /** Reading a dotted version gives the numbers it was written from. */
  lemma ParseOfDotted(ns: seq<nat>)
    requires ns != [] && Fits(ns)
    ensures var xs := Parse(Dotted(ns)); |xs| == |ns| && forall i | 0 <= i < |ns| :: xs[i] == Some(ns[i] as int)
  {
    forall i | 0 <= i < |ns| ensures '.' !in Numerals(ns)[i] {
      NoDotInPrint(ns[i]);
    }
    SplitOfJoin(Numerals(ns));
    forall i | 0 <= i < |ns| ensures Atoi(Numerals(ns)[i]) == Some(ns[i] as int) {
      AtoiOfPrint(ns[i]);
    }
  }

  /** Number by number, the shorter version padded with zeros. */
  function CompareNumbers(ns: seq<nat>, ms: seq<nat>): int
    decreases |ns| + |ms|
  {
    if ns == [] && ms == [] then 0
    else
      var (n, m) := (if ns == [] then 0 else ns[0], if ms == [] then 0 else ms[0]);
      if n < m then -1
      else if n > m then 1
      else CompareNumbers(if ns == [] then [] else ns[1..], if ms == [] then [] else ms[1..])
  }

  function Rest(ns: seq<nat>, i: nat): seq<nat> {
    if i < |ns| then ns[i..] else []
  }

  lemma {:induction false} CompareFromNumbers(xs: seq<Option<int>>, ys: seq<Option<int>>, ns: seq<nat>, ms: seq<nat>, i: nat)
    requires |xs| == |ns| && forall k | 0 <= k < |ns| :: xs[k] == Some(ns[k] as int)
    requires |ys| == |ms| && forall k | 0 <= k < |ms| :: ys[k] == Some(ms[k] as int)
    ensures CompareFrom(xs, ys, i) == Some(CompareNumbers(Rest(ns, i), Rest(ms, i)))
    decreases |xs| + |ys| - i
  {
    if i < |ns| || i < |ms| {
      assert i < |ns| ==> Rest(ns, i)[1..] == Rest(ns, i + 1);
      assert i < |ms| ==> Rest(ms, i)[1..] == Rest(ms, i + 1);
      CompareFromNumbers(xs, ys, ns, ms, i + 1);
    }
  }

  /** Dotted versions compare as the sequences of their numbers do. */
  lemma DottedCompare(ns: seq<nat>, ms: seq<nat>)
    requires ns != [] && ms != [] && Fits(ns) && Fits(ms)
    ensures Compare(Dotted(ns), Dotted(ms)) == Some(CompareNumbers(ns, ms))
  {
    ParseOfDotted(ns);
    ParseOfDotted(ms);
    CompareFromNumbers(Parse(Dotted(ns)), Parse(Dotted(ms)), ns, ms, 0);
    assert Rest(ns, 0) == ns && Rest(ms, 0) == ms;
  }

  /** A ready pass against a dotted mark: the higher numbers win the mark, lower ones are a downgrade. */
  lemma PassByNumbers(ns: seq<nat>, ms: seq<nat>, was: bool)
    requires ns != [] && ms != [] && Fits(ns) && Fits(ms)
    ensures Observe(Status(Dotted(ms), was), Pass(Dotted(ns), true))
            == if CompareNumbers(ns, ms) < 0 then Status(Dotted(ms), true) else Status(Dotted(ns), false)
  {
    DottedCompare(ns, ms);
    assert Numerals(ns)[0] != "" && Numerals(ms)[0] != "";
    JoinNotEmpty(Numerals(ns));
    JoinNotEmpty(Numerals(ms));
  }

  lemma JoinNotEmpty(parts: seq<string>)
    requires parts != [] && parts[0] != ""
    ensures Join(parts) != ""
  {
  }

  /** A version with a malformed part is comparable only where an earlier part decides. */
  lemma MalformedCompare(parts: seq<string>, ns: seq<nat>, k: nat)
    requires ns != [] && Fits(ns) && k < |parts| && forall i | 0 <= i < |parts| :: '.' !in parts[i]
    requires Atoi(parts[k]).None? && k <= |ns| && forall i | 0 <= i < k :: parts[i] == Print(ns[i])
    ensures Compare(Join(parts), Dotted(ns)).None?
  {
    SplitOfJoin(parts);
    ParseOfDotted(ns);
    var xs, ys := Parse(Join(parts)), Parse(Dotted(ns));
    forall i | 0 <= i < k ensures xs[i] == ys[i] {
      AtoiOfPrint(ns[i]);
    }
    SameUpTo(xs, ys, 0, k);
  }

  lemma {:induction false} SameUpTo(xs: seq<Option<int>>, ys: seq<Option<int>>, i: nat, k: nat)
    requires i <= k < |xs| && k <= |ys| && xs[k].None? && forall j | i <= j < k :: xs[j] == ys[j]
    ensures CompareFrom(xs, ys, i).None?
    decreases k - i
  {
    if i < k && xs[i].Some? {
      SameUpTo(xs, ys, i + 1, k);
    }
  }

  /** Two-digit parts: the month does not stop at nine. */
  lemma TenComesAfterNine(year: nat, day: nat)
    requires year < LIMIT && day < LIMIT
    ensures Compare(Dotted([year, 10, day]), Dotted([year, 9, day])) == Some(1)
    ensures Compare(Dotted([year, 9, day]), Dotted([year, 10, day])) == Some(-1)
    ensures Print(10) == "10" && Print(9) == "9"
  {
    DottedCompare([year, 10, day], [year, 9, day]);
    DottedCompare([year, 9, day], [year, 10, day]);
    assert [year, 10, day][1..] == [10, day] && [year, 9, day][1..] == [9, day];
    assert Print(1) == "1";
  }
}
