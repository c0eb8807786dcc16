/**
 Go maps as they live on the heap: a map value is a reference, so two maps can hold the
 same nested map.  A `Layout` lists the addresses a tree occupies; it is only used to state
 and prove what the operations do.
 */
module GoHeap {
  import opened Basics
  import opened JsonTree

  /** What a Go map holds under a key: a reference to a map, or anything else. */
  datatype Val = Leaf(j: Json) | Ref(to: nat)
  type Cell = map<string, Val>
  type Cells = seq<Cell>

  datatype Layout = Atom(j: Json) | Node(at: nat, kids: map<string, Layout>)

  ghost function ValOf(n: Layout): Val {
    match n
    case Atom(j) => Leaf(j)
    case Node(at, _) => Ref(at)
  }

  ghost function CellOf(kids: map<string, Layout>): Cell {
    map k | k in kids :: ValOf(kids[k])
  }

  ghost predicate Holds(h: Cells, n: Layout) {
    n.Node? ==>
      && n.at < |h|
      && h[n.at] == CellOf(n.kids)
      && forall k | k in n.kids :: Holds(h, n.kids[k])
  }

  /** The address is one of the layout's. */
  ghost predicate In(n: Layout, a: int) {
    n.Node? && (n.at == a || exists k :: k in n.kids && In(n.kids[k], a))
  }

  ghost predicate Apart(m: Layout, n: Layout) {
    forall a :: !(In(m, a) && In(n, a))
  }

  /** No address occurs twice: a write at one place is seen at no other. */
  ghost predicate Sep(n: Layout) {
    match n
    case Atom(j) => !j.Obj?
    case Node(at, kids) =>
      && (forall k | k in kids :: Sep(kids[k]) && !In(kids[k], at))
      && (forall k, l | k in kids && l in kids && k != l :: Apart(kids[k], kids[l]))
  }

  ghost function TreeOf(n: Layout): Json {
    match n
    case Atom(j) => j
    case Node(_, kids) => Obj(map k | k in kids :: TreeOf(kids[k]))
  }

  ghost function Fields(n: Layout): (t: Tree)
    requires n.Node?
    ensures Obj(t) == TreeOf(n)
  {
    TreeOf(n).fields
  }

  lemma FieldsUpdate(n: Layout, k: string, v: Layout)
    requires n.Node?
    ensures Fields(Node(n.at, n.kids[k := v])) == Fields(n)[k := TreeOf(v)]
  {
  }

  lemma ChildFields(n: Layout, k: string)
    requires n.Node? && Sep(n)
    ensures Child(Fields(n), k) == if k in n.kids && n.kids[k].Node? then Fields(n.kids[k]) else map[]
  {
    assert k in n.kids ==> Fields(n)[k] == TreeOf(n.kids[k]) && Sep(n.kids[k]);
  }

  lemma {:induction false} InBounds(h: Cells, n: Layout, a: int)
    requires Holds(h, n) && In(n, a)
    ensures 0 <= a < |h|
    decreases n
  {
    if n.at != a {
      var k :| k in n.kids && In(n.kids[k], a);
      InBounds(h, n.kids[k], a);
    }
  }

  /** A layout survives every change of the heap outside its own addresses. */
  lemma {:induction false} HoldsFrame(h: Cells, g: Cells, n: Layout)
    requires Holds(h, n) && |h| <= |g|
    requires forall a | 0 <= a < |h| && In(n, a) :: g[a] == h[a]
    ensures Holds(g, n)
    decreases n
  {
    if n.Node? {
      assert In(n, n.at);
      forall k | k in n.kids ensures Holds(g, n.kids[k]) {
        HoldsFrame(h, g, n.kids[k]);
      }
    }
  }

  lemma HoldsLater(h: Cells, g: Cells, n: Layout)
    requires Holds(h, n) && h <= g
    ensures Holds(g, n)
  {
    HoldsFrame(h, g, n);
  }

  /** Storing one entry of a map. */
  lemma PutKid(h: Cells, n: Layout, k: string, v: Layout)
    requires n.Node? && Holds(h, n) && Sep(n) && Holds(h, v) && Sep(v) && !In(v, n.at)
    requires forall l | l in n.kids && l != k :: Apart(n.kids[l], v)
    ensures var g := h[n.at := h[n.at][k := ValOf(v)]];
            var n' := Node(n.at, n.kids[k := v]);
            Holds(g, n') && Sep(n')
  {
    var g := h[n.at := h[n.at][k := ValOf(v)]];
    var n' := Node(n.at, n.kids[k := v]);
    assert g[n.at] == CellOf(n'.kids);
    forall l | l in n'.kids ensures Holds(g, n'.kids[l]) {
      HoldsFrame(h, g, n'.kids[l]);
    }
  }

  /******* setNestedValue *******/

  /** `ensureNestedMap`: the new heap and the address of the nested map. */
  function Ensure(h: Cells, a: nat, k: string): (Cells, nat)
    requires a < |h|
  {
    if k in h[a] && h[a][k].Ref? then (h, h[a][k].to)
    else (h[a := h[a][k := Ref(|h|)]] + [map[]], |h|)
  }

  /** The walk down a path never leaves the heap. */
  ghost predicate Walkable(h: Cells, a: nat, path: seq<string>)
    requires path != []
    decreases |path|
  {
    a < |h| && (|path| > 1 ==> Walkable(Ensure(h, a, path[0]).0, Ensure(h, a, path[0]).1, path[1..]))
  }

  function Store(h: Cells, a: nat, path: seq<string>, v: Val): Cells
    requires path != [] && Walkable(h, a, path)
    decreases |path|
  {
    if |path| == 1 then h[a := h[a][path[0] := v]]
    else
      var (g, c) := Ensure(h, a, path[0]);
      Store(g, c, path[1..], v)
  }

  /** The nested layout below a key, or where a new empty map goes. */
  ghost function KidAt(n: Layout, k: string, free: nat): (r: Layout)
    requires n.Node?
    ensures r.Node?
  {
    if k in n.kids && n.kids[k].Node? then n.kids[k] else Node(free, map[])
  }

  ghost function NextFree(n: Layout, k: string, free: nat): nat
    requires n.Node?
  {
    if k in n.kids && n.kids[k].Node? then free else free + 1
  }

  ghost function StoreLayout(n: Layout, path: seq<string>, v: Layout, free: nat): (r: Layout)
    requires n.Node? && path != []
    ensures r.Node? && r.at == n.at
    decreases |path|
  {
    if |path| == 1 then Node(n.at, n.kids[path[0] := v])
    else Node(n.at, n.kids[path[0] := StoreLayout(KidAt(n, path[0], free), path[1..], v, NextFree(n, path[0], free))])
  }

  ghost predicate Below(n: Layout, free: nat) {
    forall a | In(n, a) :: a < free
  }

  lemma KidFacts(n: Layout, k: string, free: nat, v: Layout)
    requires n.Node? && Sep(n) && Below(n, free) && Below(v, free) && Apart(n, v)
    ensures var kid := KidAt(n, k, free);
            Sep(kid) && !In(kid, n.at) && Below(kid, NextFree(n, k, free)) && Apart(kid, v)
    ensures Fields(KidAt(n, k, free)) == Child(Fields(n), k)
  {
    ChildFields(n, k);
    assert In(n, n.at);
    assert k in n.kids ==> forall a :: In(n.kids[k], a) ==> In(n, a);
  }

  lemma {:induction false} StoreTree(n: Layout, path: seq<string>, v: Layout, free: nat)
    requires n.Node? && path != [] && Sep(n) && Below(n, free) && Below(v, free) && Apart(n, v)
    ensures Fields(StoreLayout(n, path, v, free)) == SetAt(Fields(n), path, TreeOf(v))
    decreases |path|
  {
    if |path| == 1 {
      FieldsUpdate(n, path[0], v);
    } else {
      KidFacts(n, path[0], free, v);
      var kid, next := KidAt(n, path[0], free), NextFree(n, path[0], free);
      StoreTree(kid, path[1..], v, next);
      FieldsUpdate(n, path[0], StoreLayout(kid, path[1..], v, next));
    }
  }

  lemma {:induction false} StoreReach(n: Layout, path: seq<string>, v: Layout, free: nat, a: int)
    requires n.Node? && path != [] && In(StoreLayout(n, path, v, free), a)
    ensures In(n, a) || In(v, a) || a >= free
    decreases |path|
  {
    var n' := StoreLayout(n, path, v, free);
    if a != n.at {
      var l :| l in n'.kids && In(n'.kids[l], a);
      if l != path[0] {
        assert n.kids[l] == n'.kids[l];
      } else if |path| > 1 {
        StoreReach(KidAt(n, path[0], free), path[1..], v, NextFree(n, path[0], free), a);
      }
    }
  }

  lemma KidsApart(n: Layout, k: string, kid: Layout)
    requires n.Node? && Sep(n) && Sep(kid) && !In(kid, n.at)
    requires forall l | l in n.kids && l != k :: Apart(n.kids[l], kid)
    ensures Sep(Node(n.at, n.kids[k := kid]))
  {
  }

  lemma {:induction false} StoreSep(n: Layout, path: seq<string>, v: Layout, free: nat)
    requires n.Node? && path != [] && Sep(n) && Sep(v) && Below(n, free) && Below(v, free) && Apart(n, v)
    ensures Sep(StoreLayout(n, path, v, free))
    decreases |path|
  {
    var k := path[0];
    assert In(n, n.at);
    var kid := if |path| == 1 then v else StoreLayout(KidAt(n, k, free), path[1..], v, NextFree(n, k, free));
    if |path| > 1 {
      KidFacts(n, k, free, v);
      StoreSep(KidAt(n, k, free), path[1..], v, NextFree(n, k, free));
    }
    forall a | In(kid, a) ensures a != n.at && forall l | l in n.kids && l != k :: !In(n.kids[l], a) {
      assert forall l | l in n.kids && In(n.kids[l], a) :: In(n, a);
      if |path| > 1 {
        StoreReach(KidAt(n, k, free), path[1..], v, NextFree(n, k, free), a);
        assert k in n.kids ==> forall l | l in n.kids && l != k :: Apart(n.kids[k], n.kids[l]);
      }
    }
    KidsApart(n, k, kid);
  }

  /** What a write below key k of a map may touch: that map, what hangs below k, and new cells. */
  ghost predicate Touched(n: Layout, k: string, a: int)
    requires n.Node?
  {
    a == n.at || (k in n.kids && In(n.kids[k], a))
  }

  /** Nothing changes outside the cells a write below key k may touch. */
  ghost predicate Confined(h: Cells, g: Cells, n: Layout, k: string)
    requires n.Node?
  {
    |h| <= |g| && forall a | 0 <= a < |h| && !Touched(n, k, a) :: g[a] == h[a]
  }

  lemma BelowSize(h: Cells, n: Layout)
    requires Holds(h, n)
    ensures Below(n, |h|)
  {
    forall a | In(n, a) ensures a < |h| {
      InBounds(h, n, a);
    }
  }

  lemma EnsureHolds(h: Cells, n: Layout, k: string)
    requires n.Node? && Holds(h, n) && Sep(n)
    ensures var (g, c) := Ensure(h, n.at, k);
            var kid := KidAt(n, k, |h|);
            && c == kid.at && |g| == NextFree(n, k, |h|) && Holds(g, kid)
            && g[n.at] == CellOf(n.kids[k := kid])
            && (forall a | 0 <= a < |h| && a != n.at :: g[a] == h[a])
  {
    if k in n.kids && n.kids[k].Node? {
      assert n.kids[k := n.kids[k]] == n.kids;
      assert h[n.at][k] == ValOf(n.kids[k]);
    } else {
      var (g, c) := Ensure(h, n.at, k);
      assert g[n.at] == h[n.at][k := Ref(|h|)];
      assert g[|h|] == map[] == CellOf(map[]);
    }
  }

  /** The heap side of a write: the new layout is in place. */
  lemma {:induction false} StoreHolds(h: Cells, n: Layout, path: seq<string>, v: Layout)
    requires n.Node? && path != [] && Holds(h, n) && Sep(n) && Holds(h, v) && Apart(n, v)
    ensures Walkable(h, n.at, path)
    ensures Confined(h, Store(h, n.at, path, ValOf(v)), n, path[0])
    ensures Holds(Store(h, n.at, path, ValOf(v)), StoreLayout(n, path, v, |h|))
    decreases |path|
  {
    var k := path[0];
    if |path| == 1 {
      var g := h[n.at := h[n.at][k := ValOf(v)]];
      assert In(n, n.at);
      HoldsFrame(h, g, v);
      assert g[n.at] == CellOf(n.kids[k := v]);
      SetKid(h, g, n, k, v);
    } else {
      var (g, c) := Ensure(h, n.at, k);
      var kid := KidAt(n, k, |h|);
      BeforeDescent(h, n, k, v);
      StoreHolds(g, kid, path[1..], v);
      AfterDescent(h, n, k, path[1], Store(g, c, path[1..], ValOf(v)), StoreLayout(kid, path[1..], v, |g|));
    }
  }

  lemma BeforeDescent(h: Cells, n: Layout, k: string, v: Layout)
    requires n.Node? && Holds(h, n) && Sep(n) && Holds(h, v) && Apart(n, v)
    ensures var (g, c) := Ensure(h, n.at, k);
            var kid := KidAt(n, k, |h|);
            c == kid.at && |g| == NextFree(n, k, |h|) && Holds(g, kid) && Sep(kid) && Holds(g, v) && Apart(kid, v)
  {
    EnsureHolds(h, n, k);
    BelowSize(h, n);
    BelowSize(h, v);
    KidFacts(n, k, |h|, v);
    assert In(n, n.at);
    HoldsFrame(h, Ensure(h, n.at, k).0, v);
  }

  lemma AfterDescent(h: Cells, n: Layout, k: string, l: string, f: Cells, kid: Layout)
    requires n.Node? && Holds(h, n) && Sep(n)
    requires Confined(Ensure(h, n.at, k).0, f, KidAt(n, k, |h|), l)
    requires Holds(f, kid) && ValOf(kid) == ValOf(KidAt(n, k, |h|))
    ensures Confined(h, f, n, k) && Holds(f, Node(n.at, n.kids[k := kid]))
  {
    var g, was := Ensure(h, n.at, k).0, KidAt(n, k, |h|);
    EnsureHolds(h, n, k);
    assert !Touched(was, l, n.at) by {
      BelowSize(h, n);
      KidFacts(n, k, |h|, Atom(Null));
      assert Touched(was, l, n.at) ==> In(was, n.at);
    }
    assert CellOf(n.kids[k := was]) == CellOf(n.kids[k := kid]);
    SetKid(h, f, n, k, kid);
  }

  lemma SetKid(h: Cells, f: Cells, n: Layout, k: string, kid: Layout)
    requires n.Node? && Holds(h, n) && Sep(n) && Confined(h, f, n, k)
    requires f[n.at] == CellOf(n.kids[k := kid]) && Holds(f, kid)
    ensures Holds(f, Node(n.at, n.kids[k := kid]))
  {
    forall l | l in n.kids && l != k ensures Holds(f, n.kids[l]) {
      assert forall a | 0 <= a < |h| && In(n.kids[l], a) :: !Touched(n, k, a);
      HoldsFrame(h, f, n.kids[l]);
    }
  }

  /**
   Writing a value in place refines the write on trees, provided no cell of the target is
   reached twice: the new heap holds the new tree, and only cells on the path change.
   */
  lemma StoreRefinesSet(h: Cells, n: Layout, path: seq<string>, v: Layout)
    requires n.Node? && path != [] && Holds(h, n) && Sep(n) && Holds(h, v) && Sep(v) && Apart(n, v)
    ensures Walkable(h, n.at, path)
    ensures var g, n' := Store(h, n.at, path, ValOf(v)), StoreLayout(n, path, v, |h|);
            && Holds(g, n') && Sep(n') && Fields(n') == SetAt(Fields(n), path, TreeOf(v))
            && Confined(h, g, n, path[0])
            && forall a | In(n', a) :: In(n, a) || In(v, a) || a >= |h|
  {
    BelowSize(h, n);
    BelowSize(h, v);
    StoreHolds(h, n, path, v);
    StoreSep(n, path, v, |h|);
    StoreTree(n, path, v, |h|);
    forall a | In(StoreLayout(n, path, v, |h|), a) ensures In(n, a) || In(v, a) || a >= |h| {
      StoreReach(n, path, v, |h|, a);
    }
  }

  /******* Deleting a nested key *******/

  /** Deletes the last key of the path if every step above it is a map. */
  function Remove(h: Cells, a: nat, path: seq<string>): Cells
    requires path != []
    decreases |path|
  {
    if a >= |h| then h
    else if |path| == 1 then h[a := h[a] - {path[0]}]
    else if path[0] in h[a] && h[a][path[0]].Ref? then Remove(h, h[a][path[0]].to, path[1..])
    else h
  }

  ghost function RemoveLayout(n: Layout, path: seq<string>): (r: Layout)
    requires n.Node? && path != []
    ensures r.Node? && r.at == n.at
    decreases |path|
  {
    if |path| == 1 then Node(n.at, n.kids - {path[0]})
    else if path[0] in n.kids && n.kids[path[0]].Node?
    then Node(n.at, n.kids[path[0] := RemoveLayout(n.kids[path[0]], path[1..])])
    else n
  }

  lemma {:induction false} RemoveReach(n: Layout, path: seq<string>, a: int)
    requires n.Node? && path != [] && In(RemoveLayout(n, path), a)
    ensures In(n, a)
    decreases |path|
  {
    var n' := RemoveLayout(n, path);
    if a != n.at {
      var l :| l in n'.kids && In(n'.kids[l], a);
      if |path| > 1 && l == path[0] && n.kids[l].Node? {
        RemoveReach(n.kids[l], path[1..], a);
      }
      assert In(n.kids[l], a);
    }
  }

  lemma {:induction false} RemoveSep(n: Layout, path: seq<string>)
    requires n.Node? && path != [] && Sep(n)
    ensures Sep(RemoveLayout(n, path))
    ensures Fields(RemoveLayout(n, path)) == DeleteAt(Fields(n), path)
    decreases |path|
  {
    var k := path[0];
    if |path| == 1 {
      assert Fields(RemoveLayout(n, path)) == Fields(n) - {k};
    } else if k in n.kids {
      assert Fields(n)[k] == TreeOf(n.kids[k]) && Sep(n.kids[k]);
      if n.kids[k].Node? {
        var kid := RemoveLayout(n.kids[k], path[1..]);
        RemoveSep(n.kids[k], path[1..]);
        forall a | In(kid, a) ensures In(n.kids[k], a) {
          RemoveReach(n.kids[k], path[1..], a);
        }
        KidsApart(n, k, kid);
        FieldsUpdate(n, k, kid);
      }
    }
  }

  lemma {:induction false} RemoveHolds(h: Cells, n: Layout, path: seq<string>)
    requires n.Node? && path != [] && Holds(h, n) && Sep(n)
    ensures Confined(h, Remove(h, n.at, path), n, path[0])
    ensures Holds(Remove(h, n.at, path), RemoveLayout(n, path))
    decreases |path|
  {
    var k := path[0];
    if |path| == 1 {
      RemoveHere(h, n, k);
    } else if k in n.kids && n.kids[k].Node? {
      assert h[n.at][k] == ValOf(n.kids[k]);
      RemoveHolds(h, n.kids[k], path[1..]);
      EnsureHolds(h, n, k);
      AfterDescent(h, n, k, path[1], Remove(h, n.kids[k].at, path[1..]), RemoveLayout(n.kids[k], path[1..]));
    }
  }

  lemma RemoveHere(h: Cells, n: Layout, k: string)
    requires n.Node? && Holds(h, n) && Sep(n)
    ensures Holds(h[n.at := h[n.at] - {k}], Node(n.at, n.kids - {k}))
  {
    var g := h[n.at := h[n.at] - {k}];
    assert g[n.at] == CellOf(n.kids - {k});
    forall l | l in n.kids && l != k ensures Holds(g, n.kids[l]) {
      HoldsFrame(h, g, n.kids[l]);
    }
  }

  /******* The operations on the heap *******/

  /** Where the entry of a merged map comes from. */
  ghost predicate MergedKid(b: map<string, Layout>, o: map<string, Layout>, k: string, kid: Layout, free: nat)
    requires k in o
  {
    if k in b && b[k].Node? && o[k].Node? then
      && kid.Node? && kid.at >= free
      && TreeOf(kid) == Obj(DeepMerge(Fields(b[k]), Fields(o[k])))
      && forall a | In(kid, a) :: a >= free || (In(b[k], a) && a != b[k].at) || (In(o[k], a) && a != o[k].at)
    else kid == o[k]
  }

  ghost predicate MergedKids(b: map<string, Layout>, o: map<string, Layout>, rest: set<string>, kids: map<string, Layout>, free: nat) {
    && kids.Keys == b.Keys + (o.Keys - rest)
    && forall k | k in kids :: if k in o && k !in rest then MergedKid(b, o, k, kids[k], free) else k in b && kids[k] == b[k]
  }

  lemma MergedTree(nb: Layout, no: Layout, n: Layout, free: nat)
    requires nb.Node? && no.Node? && n.Node? && MergedKids(nb.kids, no.kids, {}, n.kids, free)
    requires Sep(nb) && Sep(no)
    ensures Fields(n) == DeepMerge(Fields(nb), Fields(no))
  {
    var m := DeepMerge(Fields(nb), Fields(no));
    assert n.kids.Keys == m.Keys;
    forall k | k in n.kids ensures TreeOf(n.kids[k]) == m[k] {
      MergedTreeAt(nb, no, n.kids[k], free, k);
    }
  }

  lemma MergedTreeAt(nb: Layout, no: Layout, kid: Layout, free: nat, k: string)
    requires nb.Node? && no.Node? && Sep(nb) && Sep(no)
    requires if k in no.kids then MergedKid(nb.kids, no.kids, k, kid, free) else k in nb.kids && kid == nb.kids[k]
    ensures k in DeepMerge(Fields(nb), Fields(no)) && TreeOf(kid) == DeepMerge(Fields(nb), Fields(no))[k]
  {
    assert k in nb.kids ==> Fields(nb)[k] == TreeOf(nb.kids[k]) && Sep(nb.kids[k]);
    assert k in no.kids ==> Fields(no)[k] == TreeOf(no.kids[k]) && Sep(no.kids[k]);
  }

  /** The cells of a merged map: new ones, or cells of the two maps other than their roots. */
  lemma MergedReach(nb: Layout, no: Layout, n: Layout, free: nat, a: int)
    requires nb.Node? && no.Node? && n.Node? && n.at >= free && MergedKids(nb.kids, no.kids, {}, n.kids, free)
    requires Sep(nb) && Sep(no) && Below(nb, free) && Below(no, free) && Apart(nb, no) && In(n, a)
    ensures a >= free || (In(nb, a) && a != nb.at) || (In(no, a) && a != no.at)
  {
    if a != n.at && a < free {
      var k :| k in n.kids && In(n.kids[k], a);
      if k in no.kids {
        FromEither(nb, no, k, n.kids[k], free, a);
      }
      if k in nb.kids && In(nb.kids[k], a) {
        KidIn(nb, k, a);
      } else {
        KidIn(no, k, a);
      }
    }
  }

  lemma KidsOfApart(nb: Layout, no: Layout, k: string)
    requires nb.Node? && no.Node? && Apart(nb, no) && k in nb.kids && k in no.kids
    ensures Apart(nb.kids[k], no.kids[k])
  {
    assert forall a | In(nb.kids[k], a) :: In(nb, a);
    assert forall a | In(no.kids[k], a) :: In(no, a);
  }

  lemma StartMerge(h: Cells, nb: Layout, n: Layout)
    requires nb.Node? && Holds(h, nb) && Sep(nb) && n == Node(|h|, nb.kids)
    ensures Holds(h + [h[nb.at]], n) && Sep(n)
  {
    forall k | k in nb.kids ensures Holds(h + [h[nb.at]], nb.kids[k]) && !In(nb.kids[k], |h|) {
      HoldsLater(h, h + [h[nb.at]], nb.kids[k]);
      BelowSize(h, nb.kids[k]);
    }
  }

  lemma KidIn(n: Layout, k: string, a: int)
    requires n.Node? && Sep(n) && k in n.kids && In(n.kids[k], a)
    ensures In(n, a) && a != n.at
  {
  }

  /** A merged entry shares no cell with the entries under other keys. */
  lemma MergedApart(nb: Layout, no: Layout, rest: set<string>, n: Layout, free: nat, k: string, kid: Layout, later: nat)
    requires nb.Node? && no.Node? && n.Node? && MergedKids(nb.kids, no.kids, rest, n.kids, free)
    requires Sep(nb) && Sep(no) && Apart(nb, no) && Below(nb, free) && Below(no, free)
    requires k in rest && rest <= no.kids.Keys && MergedKid(nb.kids, no.kids, k, kid, later)
    requires free <= n.at < later && Below(n, later)
    ensures !In(kid, n.at)
    ensures forall l | l in n.kids && l != k :: Apart(n.kids[l], kid)
  {
    forall a | In(kid, a) ensures a != n.at {
      if a < later {
        FromEither(nb, no, k, kid, later, a);
        assert k in nb.kids && In(nb.kids[k], a) ==> In(nb, a);
        assert In(no.kids[k], a) ==> In(no, a);
      }
    }
    forall l | l in n.kids && l != k ensures Apart(n.kids[l], kid) {
      assert forall a | In(n.kids[l], a) :: In(n, a);
      MergedApartFrom(nb, no, free, k, kid, later, l, n.kids[l]);
    }
  }

  /** One more key is merged; what is new later is new. */
  lemma MergedKidsStep(b: map<string, Layout>, o: map<string, Layout>, rest: set<string>, kids: map<string, Layout>,
                       free: nat, k: string, kid: Layout, later: nat)
    requires MergedKids(b, o, rest, kids, free) && k in rest && k in o && free <= later && MergedKid(b, o, k, kid, later)
    ensures MergedKids(b, o, rest - {k}, kids[k := kid], free)
  {
    assert MergedKid(b, o, k, kid, free);
  }

  /** The merge loop with the keys `rest` to go: the heap has only grown, and holds what is merged so far. */
  ghost predicate Merging(was: Cells, h: Cells, nb: Layout, no: Layout, rest: set<string>, n: Layout) {
    && nb.Node? && no.Node? && n.Node? && n.at == |was| && was <= h
    && Holds(h, n) && Sep(n) && MergedKids(nb.kids, no.kids, rest, n.kids, |was|)
  }

  /** The loop finds the inputs as they were, and under a key to go the entry of the base. */
  lemma MergeReads(was: Cells, h: Cells, nb: Layout, no: Layout, rest: set<string>, n: Layout, k: string)
    requires Merging(was, h, nb, no, rest, n) && Holds(was, nb) && Holds(was, no) && k in rest && rest <= no.kids.Keys
    ensures Holds(h, nb) && Holds(h, no) && h[no.at] == CellOf(no.kids)
    ensures (if k in h[n.at] then Some(h[n.at][k]) else None) == (if k in nb.kids then Some(ValOf(nb.kids[k])) else None)
  {
    HoldsLater(was, h, no);
    HoldsLater(was, h, nb);
    assert h[n.at] == CellOf(n.kids);
  }

  lemma MergeStep(was: Cells, h: Cells, g: Cells, nb: Layout, no: Layout, rest: set<string>, n: Layout, k: string, kid: Layout)
    requires Merging(was, h, nb, no, rest, n) && Holds(was, nb) && Holds(was, no) && Sep(nb) && Sep(no) && Apart(nb, no)
    requires k in rest && rest <= no.kids.Keys && MergedKid(nb.kids, no.kids, k, kid, |h|)
    requires h <= g && Holds(g, kid) && Sep(kid)
    ensures var n' := Node(n.at, n.kids[k := kid]);
            Merging(was, g[n.at := g[n.at][k := ValOf(kid)]], nb, no, rest - {k}, n')
  {
    BelowSize(was, nb);
    BelowSize(was, no);
    MergedKidsStep(nb.kids, no.kids, rest, n.kids, |was|, k, kid, |h|);
    BelowSize(h, n);
    HoldsLater(h, g, n);
    MergedApart(nb, no, rest, n, |was|, k, kid, |h|);
    PutKid(g, n, k, kid);
    PrefixKept(was, h, g, n.at, g[n.at][k := ValOf(kid)]);
  }

  lemma PrefixKept(h: Cells, g: Cells, f: Cells, a: nat, c: Cell)
    requires h <= g <= f && |h| <= a < |f|
    ensures h <= f[a := c]
  {
  }

  lemma MergedApartFrom(nb: Layout, no: Layout, free: nat, k: string, kid: Layout, later: nat, l: string, other: Layout)
    requires nb.Node? && no.Node? && Sep(nb) && Sep(no) && Apart(nb, no) && Below(nb, free) && Below(no, free)
    requires k in no.kids && k != l && MergedKid(nb.kids, no.kids, k, kid, later)
    requires Below(other, later)
    requires (l in no.kids && MergedKid(nb.kids, no.kids, l, other, free)) || (l in nb.kids && other == nb.kids[l])
    ensures Apart(other, kid)
  {
    forall a | In(kid, a) && In(other, a) ensures false {
      FromEither(nb, no, k, kid, later, a);
      OtherKey(nb, no, k, l, other, free, a);
    }
  }

  lemma FromEither(nb: Layout, no: Layout, k: string, kid: Layout, later: nat, a: int)
    requires nb.Node? && no.Node? && k in no.kids && MergedKid(nb.kids, no.kids, k, kid, later)
    requires In(kid, a) && a < later
    ensures (k in nb.kids && In(nb.kids[k], a)) || In(no.kids[k], a)
  {
  }

  lemma OtherKey(nb: Layout, no: Layout, k: string, l: string, kid: Layout, free: nat, a: int)
    requires nb.Node? && no.Node? && Sep(nb) && Sep(no) && Apart(nb, no) && Below(nb, free) && Below(no, free)
    requires k != l && k in no.kids && ((k in nb.kids && In(nb.kids[k], a)) || In(no.kids[k], a))
    requires (l in no.kids && MergedKid(nb.kids, no.kids, l, kid, free)) || (l in nb.kids && kid == nb.kids[l])
    ensures !In(kid, a)
  {
    if k in nb.kids && In(nb.kids[k], a) {
      KidIn(nb, k, a);
      assert l in nb.kids ==> Apart(nb.kids[k], nb.kids[l]);
      assert l in no.kids && In(no.kids[l], a) ==> In(no, a);
    } else {
      KidIn(no, k, a);
      assert l in no.kids ==> Apart(no.kids[k], no.kids[l]);
      assert l in nb.kids && In(nb.kids[l], a) ==> In(nb, a);
    }
  }

  ghost predicate Above(n: Layout, floor: nat) {
    forall a | In(n, a) :: a >= floor
  }

  /** What lies in new cells is apart from what was there. */
  lemma NewApart(n: Layout, kid: Layout, free: nat)
    requires n.Node? && Below(n, free) && Above(kid, free)
    ensures !In(kid, n.at) && forall l | l in n.kids :: Apart(n.kids[l], kid)
  {
    assert In(n, n.at);
    forall l | l in n.kids ensures Apart(n.kids[l], kid) {
      assert forall a | In(n.kids[l], a) :: In(n, a);
    }
  }

  /** The parse loop with the keys `rest` to go: the heap has only grown, by what is parsed so far. */
  ghost predicate Parsing(was: Cells, h: Cells, t: Tree, rest: set<string>, n: Layout) {
    && n.Node? && n.at == |was| && was <= h
    && Holds(h, n) && Sep(n) && Above(n, |was|) && Fields(n) == t - rest
  }

  /** One more entry of a map being built from new cells only. */
  lemma ParseStep(was: Cells, h: Cells, g: Cells, t: Tree, rest: set<string>, n: Layout, k: string, kid: Layout)
    requires Parsing(was, h, t, rest, n) && k in rest && k in t
    requires h <= g && Holds(g, kid) && Sep(kid) && Above(kid, |h|) && TreeOf(kid) == t[k]
    ensures Parsing(was, g[n.at := g[n.at][k := ValOf(kid)]], t, rest - {k}, Node(n.at, n.kids[k := kid]))
  {
    BelowSize(h, n);
    HoldsLater(h, g, n);
    NewApart(n, kid, |h|);
    PutKid(g, n, k, kid);
    ParsedFields(n, t, rest, k, kid);
    ParseReach(n, |was|, k, kid);
    PrefixKept(was, h, g, n.at, g[n.at][k := ValOf(kid)]);
  }

  lemma ParsedFields(n: Layout, t: Tree, rest: set<string>, k: string, kid: Layout)
    requires n.Node? && Fields(n) == t - rest && k in rest && k in t && TreeOf(kid) == t[k]
    ensures Fields(Node(n.at, n.kids[k := kid])) == t - (rest - {k})
  {
    FieldsUpdate(n, k, kid);
    assert t - (rest - {k}) == (t - rest)[k := t[k]];
  }

  lemma ParseReach(n: Layout, floor: nat, k: string, kid: Layout)
    requires n.Node? && Above(n, floor) && Above(kid, floor)
    ensures Above(Node(n.at, n.kids[k := kid]), floor)
  {
    var n' := Node(n.at, n.kids[k := kid]);
    assert In(n, n.at);
    forall a | In(n', a) ensures a >= floor {
      if a != n.at {
        var l :| l in n'.kids && In(n'.kids[l], a);
        assert l != k ==> In(n, a);
      }
    }
  }

  class Heap {
    var cells: Cells

    constructor ()
      ensures cells == []
    {
      cells := [];
    }

    /** `ensureNestedMap`. */
    method EnsureNestedMap(parent: nat, key: string) returns (child: nat)
      requires parent < |cells|
      modifies this
      ensures (cells, child) == Ensure(old(cells), parent, key)
    {
      if key in cells[parent] && cells[parent][key].Ref? {
        return cells[parent][key].to;
      }
      child := |cells|;
      cells := cells + [map[]];
      cells := cells[parent := cells[parent][key := Ref(child)]];
      assert cells == Ensure(old(cells), parent, key).0;
    }

    /** `setNestedValue`. */
    method SetNestedValue(root: nat, val: Val, keys: seq<string>)
      requires keys != [] && Walkable(cells, root, keys)
      modifies this
      ensures cells == Store(old(cells), root, keys, val)
    {
      var m := root;
      var i := 0;
      while i < |keys| - 1
        invariant 0 <= i < |keys|
        invariant Walkable(cells, m, keys[i..])
        invariant Store(cells, m, keys[i..], val) == Store(old(cells), root, keys, val)
      {
        assert keys[i..][1..] == keys[i + 1..];
        m := EnsureNestedMap(m, keys[i]);
        i := i + 1;
      }
      cells := cells[m := cells[m][keys[i] := val]];
    }
  
    /** `delete` on a nested map. */
    method DeleteNested(root: nat, keys: seq<string>)
      requires keys != []
      modifies this
      ensures cells == Remove(old(cells), root, keys)
    {
      var m: nat := root;
      var i := 0;
      while i < |keys| - 1
        invariant 0 <= i < |keys|
        invariant cells == old(cells)
        invariant Remove(cells, m, keys[i..]) == Remove(old(cells), root, keys)
      {
        assert keys[i..][1..] == keys[i + 1..];
        if m < |cells| && keys[i] in cells[m] && cells[m][keys[i]].Ref? {
          m := cells[m][keys[i]].to;
        } else {
          return;
        }
        i := i + 1;
      }
      if m < |cells| {
        cells := cells[m := cells[m] - {keys[i]}];
      }
    }

    /**
     `deepMerge`.  Only new cells are written, and the result is the merge of the two trees;
     but an entry that is not merged recursively is the very map of the input.
     */
    method Merge(base: nat, over: nat, ghost nb: Layout, ghost no: Layout) returns (result: nat, ghost n: Layout)
      requires nb.Node? && no.Node? && nb.at == base && no.at == over
      requires Holds(cells, nb) && Holds(cells, no) && Sep(nb) && Sep(no) && Apart(nb, no)
      modifies this
      ensures old(cells) <= cells
      ensures n.Node? && n.at == result == |old(cells)|
      ensures Holds(cells, n) && Sep(n)
      ensures MergedKids(nb.kids, no.kids, {}, n.kids, |old(cells)|)
      ensures Fields(n) == DeepMerge(Fields(nb), Fields(no))
      decreases no, 1
    {
      result := |cells|;
      n := Node(result, nb.kids);
      StartMerge(cells, nb, n);
      cells := cells + [cells[base]];
      var rest := cells[over].Keys;
      while rest != {}
        invariant rest <= no.kids.Keys
        invariant Merging(old(cells), cells, nb, no, rest, n)
        decreases |rest|
      {
        var k :| k in rest;
        ghost var before := cells;
        MergeReads(old(cells), cells, nb, no, rest, n, k);
        var was := if k in cells[result] then Some(cells[result][k]) else None;
        var v, kid := MergeKey(was, cells[over][k], k, nb, no);
        MergeStep(old(cells), before, cells, nb, no, rest, n, k, kid);
        cells := cells[result := cells[result][k := v]];
        n := Node(result, n.kids[k := kid]);
        rest := rest - {k};
      }
      MergedTree(nb, no, n, result);
    }

    method MergeKey(b: Option<Val>, o: Val, k: string, ghost nb: Layout, ghost no: Layout) returns (v: Val, ghost kid: Layout)
      requires nb.Node? && no.Node? && k in no.kids && o == ValOf(no.kids[k])
      requires b == if k in nb.kids then Some(ValOf(nb.kids[k])) else None
      requires Holds(cells, nb) && Holds(cells, no) && Sep(nb) && Sep(no) && Apart(nb, no)
      modifies this
      ensures old(cells) <= cells
      ensures Holds(cells, kid) && Sep(kid) && v == ValOf(kid)
      ensures MergedKid(nb.kids, no.kids, k, kid, |old(cells)|)
      decreases no, 0
    {
      if b.Some? && b.value.Ref? && o.Ref? {
        ghost var bk, ok := nb.kids[k], no.kids[k];
        ghost var free := |cells|;
        assert Apart(bk, ok) by {
          KidsOfApart(nb, no, k);
        }
        BelowSize(cells, bk);
        BelowSize(cells, ok);
        var sub;
        sub, kid := Merge(b.value.to, o.to, bk, ok);
        forall a | In(kid, a) ensures a >= free || (In(bk, a) && a != bk.at) || (In(ok, a) && a != ok.at) {
          MergedReach(bk, ok, kid, free, a);
        }
        return Ref(sub), kid;
      }
      return o, no.kids[k];
    }
  
    /** `json.Unmarshal` into a map: a tree laid out in new cells, no two places sharing one. */
    method Parse(t: Tree) returns (root: nat, ghost n: Layout)
      modifies this
      ensures old(cells) <= cells && n.Node? && n.at == root
      ensures Holds(cells, n) && Sep(n) && Above(n, |old(cells)|) && Fields(n) == t
      decreases Obj(t), 1
    {
      root := |cells|;
      n := Node(root, map[]);
      cells := cells + [map[]];
      var rest := t.Keys;
      while rest != {}
        invariant rest <= t.Keys
        invariant Parsing(old(cells), cells, t, rest, n)
        decreases |rest|
      {
        var k :| k in rest;
        ghost var before := cells;
        var v, kid := ParseValue(t[k]);
        ParseStep(old(cells), before, cells, t, rest, n, k, kid);
        cells := cells[root := cells[root][k := v]];
        n := Node(root, n.kids[k := kid]);
        rest := rest - {k};
      }
      assert t - rest == t;
    }

    method ParseValue(j: Json) returns (v: Val, ghost n: Layout)
      modifies this
      ensures old(cells) <= cells && v == ValOf(n)
      ensures Holds(cells, n) && Sep(n) && Above(n, |old(cells)|) && TreeOf(n) == j
      decreases j, 2
    {
      if j.Obj? {
        var root;
        root, n := Parse(j.fields);
        return Ref(root), n;
      }
      return Leaf(j), Atom(j);
    }
  }
}
