/** Stable sorting by a strict weak order: what it keeps and why the result is unique. */
module StableSort {
  ghost predicate StrictWeak<T(!new)>(less: (T, T) -> bool) {
    && (forall x :: !less(x, x))
    && (forall x, y, z :: less(x, y) && less(y, z) ==> less(x, z))
    && (forall x, y, z :: less(x, z) ==> less(x, y) || less(y, z))
  }

  function Insert<T>(less: (T, T) -> bool, s: seq<T>, x: T): seq<T> {
    if s == [] then [x]
    else
      var last := |s| - 1;
      if less(x, s[last]) then Insert(less, s[..last], x) + [s[last]] else s + [x]
  }

  /** Go's `sort.SliceStable`, as the result it must have. */
  function Sort<T>(less: (T, T) -> bool, s: seq<T>): seq<T> {
    if s == [] then [] else Insert(less, Sort(less, s[..|s| - 1]), s[|s| - 1])
  }

  ghost predicate Sorted<T>(less: (T, T) -> bool, s: seq<T>) {
    forall i, j :: 0 <= i < j < |s| ==> !less(s[j], s[i])
  }

  predicate Tied<T>(less: (T, T) -> bool, x: T, y: T) {
    !less(x, y) && !less(y, x)
  }

  /** The elements tied with `x`, in order. */
  function Ties<T(!new)>(less: (T, T) -> bool, s: seq<T>, x: T): (r: seq<T>)
    ensures forall y :: y in r <==> y in s && Tied(less, y, x)
  {
    if s == [] then []
    else if Tied(less, s[0], x) then [s[0]] + Ties(less, s[1..], x)
    else Ties(less, s[1..], x)
  }

  lemma {:induction false} TiesConcat<T(!new)>(less: (T, T) -> bool, s: seq<T>, t: seq<T>, x: T)
    ensures Ties(less, s + t, x) == Ties(less, s, x) + Ties(less, t, x)
  {
    if s == [] {
      assert s + t == t;
    } else {
      assert (s + t)[1..] == s[1..] + t;
      TiesConcat(less, s[1..], t, x);
    }
  }

  lemma {:induction false} InsertPermutes<T>(less: (T, T) -> bool, s: seq<T>, e: T)
    ensures multiset(Insert(less, s, e)) == multiset(s) + multiset{e}
  {
    if s != [] && less(e, s[|s| - 1]) {
      var (init, m) := (s[..|s| - 1], s[|s| - 1]);
      InsertPermutes(less, init, e);
      assert s == init + [m];
      assert multiset(s) == multiset(init) + multiset{m};
      assert Insert(less, s, e) == Insert(less, init, e) + [m];
    }
  }

  lemma InsertedMembers<T>(less: (T, T) -> bool, s: seq<T>, e: T, x: T)
    ensures x in Insert(less, s, e) ==> x == e || x in s
  {
    InsertPermutes(less, s, e);
    assert x in Insert(less, s, e) ==> x in multiset(Insert(less, s, e));
  }

  lemma AppendSorted<T(!new)>(less: (T, T) -> bool, r: seq<T>, m: T)
    requires Sorted(less, r) && forall i :: 0 <= i < |r| ==> !less(m, r[i])
    ensures Sorted(less, r + [m])
  {
  }

  lemma {:induction false} InsertSorts<T(!new)>(less: (T, T) -> bool, s: seq<T>, e: T)
    requires StrictWeak(less) && Sorted(less, s)
    ensures Sorted(less, Insert(less, s, e))
  {
    if s != [] && less(e, s[|s| - 1]) {
      var last := |s| - 1;
      var (init, m) := (s[..last], s[last]);
      var r := Insert(less, init, e);
      InsertSorts(less, init, e);
      forall i | 0 <= i < |r| ensures !less(m, r[i]) {
        InsertedMembers(less, init, e, r[i]);
      }
      AppendSorted(less, r, m);
    }
  }

  lemma NotBothTied<T(!new)>(less: (T, T) -> bool, e: T, m: T, x: T)
    requires StrictWeak(less) && less(e, m)
    ensures Ties(less, [m], x) == [] || Ties(less, [e], x) == []
  {
    assert less(e, x) || less(x, m);
  }

  /** An element inserted before a greater one comes after the elements it is tied with. */
  lemma TiesCommute<T(!new)>(less: (T, T) -> bool, e: T, m: T, x: T)
    requires StrictWeak(less) && less(e, m)
    ensures Ties(less, [e], x) + Ties(less, [m], x) == Ties(less, [m], x) + Ties(less, [e], x)
  {
    NotBothTied(less, e, m, x);
    assert [e][1..] == [] && [m][1..] == [];
  }

  lemma {:induction false} InsertKeepsTies<T(!new)>(less: (T, T) -> bool, s: seq<T>, e: T, x: T)
    requires StrictWeak(less)
    ensures Ties(less, Insert(less, s, e), x) == Ties(less, s, x) + Ties(less, [e], x)
  {
    if s == [] {
    } else if less(e, s[|s| - 1]) {
      var (init, m) := (s[..|s| - 1], s[|s| - 1]);
      assert s == init + [m];
      InsertKeepsTies(less, init, e, x);
      TiesConcat(less, Insert(less, init, e), [m], x);
      TiesConcat(less, init, [m], x);
      TiesCommute(less, e, m, x);
      AssociateTies(Ties(less, init, x), Ties(less, [e], x), Ties(less, [m], x));
    } else {
      TiesConcat(less, s, [e], x);
    }
  }

  lemma AssociateTies<T>(a: seq<T>, b: seq<T>, c: seq<T>)
    requires b + c == c + b
    ensures (a + b) + c == (a + c) + b
  {
    assert (a + b) + c == a + (b + c) == a + (c + b) == (a + c) + b;
  }

  lemma {:induction false} SortKeeps<T(!new)>(less: (T, T) -> bool, s: seq<T>)
    requires StrictWeak(less)
    ensures Sorted(less, Sort(less, s))
    ensures multiset(Sort(less, s)) == multiset(s)
    ensures forall x :: Ties(less, Sort(less, s), x) == Ties(less, s, x)
  {
    if s != [] {
      var last := |s| - 1;
      var (init, e) := (s[..last], s[last]);
      SortKeeps(less, init);
      InsertSorts(less, Sort(less, init), e);
      InsertPermutes(less, Sort(less, init), e);
      assert s == init + [e];
      forall x ensures Ties(less, Sort(less, s), x) == Ties(less, s, x) {
        InsertKeepsTies(less, Sort(less, init), e, x);
        TiesConcat(less, init, [e], x);
      }
    }
  }

  /** The head of a sorted sequence ties with the head of any other with the same ties. */
  lemma HeadsTie<T(!new)>(less: (T, T) -> bool, s: seq<T>, t: seq<T>)
    requires StrictWeak(less) && Sorted(less, s) && Sorted(less, t)
    requires forall x :: Ties(less, s, x) == Ties(less, t, x)
    requires s != []
    ensures t != [] && s[0] == t[0]
  {
    var a := s[0];
    assert a in Ties(less, s, a);
    assert a in t;
    var b := t[0];
    assert b in Ties(less, t, b);
    assert b in s;
    assert Tied(less, a, b);
    assert Ties(less, s, a)[0] == a && Ties(less, t, a)[0] == b;
  }

  /** Sorted sequences whose tied elements come in the same order are equal. */
  lemma {:induction false} SortedUnique<T(!new)>(less: (T, T) -> bool, s: seq<T>, t: seq<T>)
    requires StrictWeak(less) && Sorted(less, s) && Sorted(less, t)
    requires forall x :: Ties(less, s, x) == Ties(less, t, x)
    ensures s == t
  {
    if s == [] {
      if t != [] {
        HeadsTie(less, t, s);
      }
    } else {
      HeadsTie(less, s, t);
      forall x ensures Ties(less, s[1..], x) == Ties(less, t[1..], x) {
        assert s == [s[0]] + s[1..] && t == [t[0]] + t[1..];
        TiesConcat(less, [s[0]], s[1..], x);
        TiesConcat(less, [t[0]], t[1..], x);
        var head := Ties(less, [s[0]], x);
        assert Ties(less, s, x)[|head|..] == Ties(less, s[1..], x);
        assert Ties(less, t, x)[|head|..] == Ties(less, t[1..], x);
      }
      SortedUnique(less, s[1..], t[1..]);
    }
  }

  /** Two inputs whose tied elements come in the same order sort to the same result. */
  lemma SortDependsOnTies<T(!new)>(less: (T, T) -> bool, s: seq<T>, t: seq<T>)
    requires StrictWeak(less)
    requires forall x :: Ties(less, s, x) == Ties(less, t, x)
    ensures Sort(less, s) == Sort(less, t)
  {
    SortKeeps(less, s);
    SortKeeps(less, t);
    SortedUnique(less, Sort(less, s), Sort(less, t));
  }

  /** Where an element stands in a reordering. */
  lemma Position<T>(x: T, s: seq<T>, t: seq<T>) returns (i: nat)
    requires x in s && multiset(s) == multiset(t)
    ensures i < |t| && t[i] == x
  {
    assert x in multiset(t);
    i :| 0 <= i < |t| && t[i] == x;
  }

  /** Two reorderings stay reorderings when the head of one and its twin are taken out. */
  lemma RemoveOne<T>(s: seq<T>, t: seq<T>, i: nat)
    requires s != [] && i < |t| && t[i] == s[0] && multiset(s) == multiset(t)
    ensures multiset(s[1..]) == multiset(t[..i] + t[i + 1..])
  {
    assert s == [s[0]] + s[1..];
    assert t == t[..i] + ([t[i]] + t[i + 1..]);
    assert multiset(t) == multiset(t[..i]) + (multiset{t[i]} + multiset(t[i + 1..]));
    assert multiset(s[1..]) == multiset(s) - multiset{s[0]};
  }
}
