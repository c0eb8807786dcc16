/**
 The rewrite for the older schema on the heap: the current config is copied, and every
 write goes to cells of the copy.  A statement on a nested map the code holds on to is
 written as the walk to that map.
 */
module LegacyHeap {
  import opened Basics
  import opened JsonTree
  import opened ConfigPipeline
  import opened LegacyConfig
  import opened GoHeap
  import opened MemoryOwnership

  /** The layout lies in cells above the old heap, which is unchanged. */
  ghost predicate Private(h0: Cells, h: Cells, n: Layout) {
    h0 <= h && Above(n, |h0|)
  }

  /** The heap holds the tree in private cells, none shared. */
  ghost predicate Copied(h0: Cells, h: Cells, n: Layout, root: nat, t: Tree) {
    n.Node? && n.at == root && Holds(h, n) && Sep(n) && Private(h0, h, n) && Fields(n) == t
  }

  lemma ConfinedKeepsOld(h0: Cells, h: Cells, g: Cells, n: Layout, k: string)
    requires n.Node? && h0 <= h && Above(n, |h0|) && Confined(h, g, n, k)
    ensures h0 <= g
  {
    assert In(n, n.at);
    forall a | 0 <= a < |h0| ensures g[a] == h0[a] {
      assert Touched(n, k, a) ==> In(n, a);
    }
  }

  lemma EditKeepsPrivate(h0: Cells, h: Cells, g: Cells, n: Layout, n': Layout, e: Edit, root: nat)
    requires e.path != [] && n.Node? && Copied(h0, h, n, root, Fields(n)) && EditedWell(h, g, n, n', e)
    ensures Copied(h0, g, n', root, ApplyEdit(Fields(n), e))
  {
    ConfinedKeepsOld(h0, h, g, n, e.path[0]);
  }

  /******* ensureNestedMap of ensureNestedMap *******/

  lemma ReplacedKid(n: Layout, k: string, free: nat, kid: Layout)
    requires n.Node? && Sep(n) && Below(n, free) && Sep(kid)
    requires forall a | In(kid, a) :: In(KidAt(n, k, free), a) || a >= NextFree(n, k, free)
    ensures Sep(Node(n.at, n.kids[k := kid]))
    ensures forall a | In(Node(n.at, n.kids[k := kid]), a) :: In(n, a) || a >= free
  {
    KidFacts(n, k, free, Atom(Null));
    assert In(n, n.at);
    forall a | In(kid, a) ensures a != n.at && forall l | l in n.kids && l != k :: !In(n.kids[l], a) {
      assert forall l | l in n.kids && In(n.kids[l], a) :: In(n, a);
      assert k in n.kids ==> forall l | l in n.kids && l != k :: Apart(n.kids[k], n.kids[l]);
    }
    KidsApart(n, k, kid);
  }

  /** The layout after the maps at two keys were made sure of. */
  ghost function Ensured2(n: Layout, k: string, l: string, free: nat): (r: Layout)
    requires n.Node?
    ensures r.Node? && r.at == n.at
  {
    var kid := KidAt(n, k, free);
    Node(n.at, n.kids[k := Node(kid.at, kid.kids[l := KidAt(kid, l, NextFree(n, k, free))])])
  }

  lemma EnsureOnce(h: Cells, n: Layout, k: string)
    requires n.Node? && Holds(h, n) && Sep(n)
    ensures var g := Ensure(h, n.at, k).0;
            Holds(g, Node(n.at, n.kids[k := KidAt(n, k, |h|)])) && Confined(h, g, n, k)
  {
    EnsureHolds(h, n, k);
    SetKid(h, Ensure(h, n.at, k).0, n, k, KidAt(n, k, |h|));
  }

  lemma EnsureTwice(h: Cells, n: Layout, k: string, l: string)
    requires n.Node? && Holds(h, n) && Sep(n)
    ensures var (g, c) := Ensure(h, n.at, k);
            && c < |g|
            && Holds(Ensure(g, c, l).0, Ensured2(n, k, l, |h|)) && Confined(h, Ensure(g, c, l).0, n, k)
  {
    var (g, c) := Ensure(h, n.at, k);
    var kid := KidAt(n, k, |h|);
    BeforeDescent(h, n, k, Atom(Null));
    EnsureOnce(g, kid, l);
    AfterDescent(h, n, k, l, Ensure(g, c, l).0, Node(kid.at, kid.kids[l := KidAt(kid, l, |g|)]));
  }

  lemma EnsuredShape(n: Layout, k: string, l: string, free: nat)
    requires n.Node? && Sep(n) && Below(n, free)
    ensures var n' := Ensured2(n, k, l, free);
            && Sep(n') && Fields(n') == SetAt(Fields(n), [k, l], Obj(Child(Child(Fields(n), k), l)))
            && forall a | In(n', a) :: In(n, a) || a >= free
  {
    var kid, next := KidAt(n, k, free), NextFree(n, k, free);
    KidFacts(n, k, free, Atom(Null));
    KidFacts(kid, l, next, Atom(Null));
    var below := KidAt(kid, l, next);
    ReplacedKid(kid, l, next, below);
    var kid' := Node(kid.at, kid.kids[l := below]);
    ReplacedKid(n, k, free, kid');
    FieldsUpdate(kid, l, below);
    FieldsUpdate(n, k, kid');
    assert [k, l][1..] == [l];
  }

  /******* Moving memory search *******/

  /** Three keys down, all maps there: the walk only writes the last cell. */
  lemma StoreThere(h: Cells, root: nat, a: nat, d: nat, k: string, l: string, m: string, v: Val)
    requires root < |h| && a < |h| && d < |h|
    requires k in h[root] && h[root][k] == Ref(a) && l in h[a] && h[a][l] == Ref(d)
    ensures Walkable(h, root, [k, l, m])
    ensures Store(h, root, [k, l, m], v) == h[d := h[d][m := v]]
  {
    var p := [k, l, m];
    assert p[1..] == [l, m] && [l, m][1..] == [m];
    assert Ensure(h, root, k) == (h, a) && Ensure(h, a, l) == (h, d);
    assert Walkable(h, d, [m]) && Walkable(h, a, [l, m]);
    assert Store(h, d, [m], v) == h[d := h[d][m := v]];
    assert Store(h, a, [l, m], v) == Store(h, d, [m], v);
  }

  /** The four maps the move touches or passes, all different. */
  ghost predicate FourMaps(h: Cells, root: nat, a: nat, d: nat, m: nat) {
    && root < |h| && a < |h| && d < |h| && m < |h|
    && root != a && root != d && root != m && m != a && m != d
    && "agents" in h[root] && h[root]["agents"] == Ref(a) && "defaults" in h[a] && h[a]["defaults"] == Ref(d)
    && "memory" in h[root] && h[root]["memory"] == Ref(m)
  }

  /** Storing then deleting is deleting then storing. */
  lemma MoveCommutes(h: Cells, root: nat, a: nat, d: nat, m: nat, v: Val)
    requires FourMaps(h, root, a, d, m)
    ensures Walkable(h, root, LEGACY_SEARCH)
    ensures var removed := Remove(h, root, SEARCH);
            && Walkable(removed, root, LEGACY_SEARCH)
            && Remove(Store(h, root, LEGACY_SEARCH, v), root, SEARCH) == Store(removed, root, LEGACY_SEARCH, v)
  {
    StoreThere(h, root, a, d, "agents", "defaults", "memorySearch", v);
    var stored := h[d := h[d]["memorySearch" := v]];
    var removed := h[m := h[m] - {"search"}];
    StoreThere(removed, root, a, d, "agents", "defaults", "memorySearch", v);
    assert stored[m := stored[m] - {"search"}] == removed[d := removed[d]["memorySearch" := v]];
  }

  /** The layout has the maps the move needs. */
  ghost predicate Movable(n: Layout) {
    && n.Node? && "agents" in n.kids && n.kids["agents"].Node?
    && "defaults" in n.kids["agents"].kids && n.kids["agents"].kids["defaults"].Node?
    && "memory" in n.kids && n.kids["memory"].Node? && "search" in n.kids["memory"].kids
  }

  lemma MovableMaps(h: Cells, n: Layout)
    requires Movable(n) && Holds(h, n) && Sep(n)
    ensures FourMaps(h, n.at, n.kids["agents"].at, n.kids["agents"].kids["defaults"].at, n.kids["memory"].at)
  {
    var a, m := n.kids["agents"], n.kids["memory"];
    var d := a.kids["defaults"];
    assert Holds(h, a) && Holds(h, m) && Holds(h, d);
    assert In(a, a.at) && In(d, d.at) && In(m, m.at);
    assert In(a, d.at);
    assert Apart(a, m) && !In(a, n.at) && !In(m, n.at);
    assert h[n.at]["agents"] == ValOf(a) && h[n.at]["memory"] == ValOf(m) && h[a.at]["defaults"] == ValOf(d);
  }

  /** Once search is deleted from memory nothing of it is left in the config. */
  lemma SearchApart(n: Layout)
    requires Movable(n) && Sep(n)
    ensures Sep(n.kids["memory"].kids["search"])
    ensures Apart(RemoveLayout(n, SEARCH), n.kids["memory"].kids["search"])
  {
    var m := n.kids["memory"];
    var s := m.kids["search"];
    var r := RemoveLayout(n, SEARCH);
    assert SEARCH[1..] == ["search"];
    assert r == Node(n.at, n.kids["memory" := Node(m.at, m.kids - {"search"})]);
    assert Sep(m);
    forall a | In(s, a) ensures !In(r, a) {
      assert In(m, a) && a != m.at && a != n.at;
      assert forall k | k in m.kids && k != "search" :: !In(m.kids[k], a);
      assert !In(Node(m.at, m.kids - {"search"}), a);
      assert forall k | k in n.kids && k != "memory" :: !In(n.kids[k], a);
    }
  }

  /** The search map stands untouched by the delete. */
  lemma SearchStands(h: Cells, n: Layout)
    requires Movable(n) && Holds(h, n) && Sep(n)
    ensures Holds(Remove(h, n.at, SEARCH), n.kids["memory"].kids["search"])
  {
    MovableMaps(h, n);
    var m := n.kids["memory"];
    var s := m.kids["search"];
    assert Sep(m) && Holds(h, m);
    HoldsFrame(h, Remove(h, n.at, SEARCH), s);
  }

  /** What the two statements of the move leave. */
  lemma MoveInPlace(h0: Cells, h: Cells, n: Layout, root: nat) returns (n': Layout)
    requires n.Node? && Copied(h0, h, n, root, Fields(n)) && Movable(n)
    ensures Walkable(h, root, LEGACY_SEARCH)
    ensures Copied(h0, Remove(Store(h, root, LEGACY_SEARCH, ValOf(n.kids["memory"].kids["search"])), root, SEARCH), n', root,
                   SetAt(DeleteAt(Fields(n), SEARCH), LEGACY_SEARCH, TreeOf(n.kids["memory"].kids["search"])))
  {
    var s := n.kids["memory"].kids["search"];
    MovableMaps(h, n);
    MoveCommutes(h, root, n.kids["agents"].at, n.kids["agents"].kids["defaults"].at, n.kids["memory"].at, ValOf(s));
    DropInPlace(h, n, SEARCH);
    var g, r := Remove(h, root, SEARCH), RemoveLayout(n, SEARCH);
    EditKeepsPrivate(h0, h, g, n, r, Drop(SEARCH), root);
    SearchStands(h, n);
    SearchApart(n);
    SearchAbove(n, |h0|);
    n' := PutPrivate(h0, g, r, root, LEGACY_SEARCH, s);
  }

  /** A private value stored in the private config. */
  lemma PutPrivate(h0: Cells, h: Cells, n: Layout, root: nat, path: seq<string>, v: Layout) returns (n': Layout)
    requires n.Node? && path != [] && Copied(h0, h, n, root, Fields(n))
    requires Holds(h, v) && Sep(v) && Apart(n, v) && Above(v, |h0|)
    ensures Walkable(h, root, path)
    ensures Copied(h0, Store(h, root, path, ValOf(v)), n', root, SetAt(Fields(n), path, TreeOf(v)))
  {
    StoreRefinesSet(h, n, path, v);
    n' := StoreLayout(n, path, v, |h|);
    ConfinedKeepsOld(h0, h, Store(h, root, path, ValOf(v)), n, path[0]);
  }

  lemma SearchAbove(n: Layout, floor: nat)
    requires Movable(n) && Above(n, floor)
    ensures Above(n.kids["memory"].kids["search"], floor)
  {
    var m := n.kids["memory"];
    forall a | In(m.kids["search"], a) ensures a >= floor {
      assert In(m, a);
      assert In(n, a);
    }
  }

  /******* Companion providers *******/

  /** The layout of the providers, two maps down. */
  ghost predicate HasProviders(n: Layout) {
    && n.Node? && "models" in n.kids && n.kids["models"].Node?
    && "providers" in n.kids["models"].kids && n.kids["models"].kids["providers"].Node?
  }

  ghost function ProvidersOf(n: Layout): (r: Layout)
    requires HasProviders(n)
    ensures r.Node?
  {
    n.kids["models"].kids["providers"]
  }

  ghost function WithProvider(n: Layout, name: string, v: Layout): (r: Layout)
    requires HasProviders(n)
    ensures r.Node? && r.at == n.at
  {
    var models, providers := n.kids["models"], ProvidersOf(n);
    Node(n.at, n.kids["models" := Node(models.at, models.kids["providers" := Node(providers.at, providers.kids[name := v])])])
  }

  /** A write inside a nested map that puts a new layout there in place, seen one map up. */
  lemma InsideKid(h: Cells, f: Cells, p: nat, n: Layout, k: string, kid: Layout)
    requires n.Node? && Holds(h, n) && Sep(n) && k in n.kids && n.kids[k].Node? && In(n.kids[k], p)
    requires |h| <= |f| && (forall a | 0 <= a < |h| && a != p :: f[a] == h[a])
    requires kid.Node? && kid.at == n.kids[k].at && Holds(f, kid)
    ensures In(n, p) && Holds(f, Node(n.at, n.kids[k := kid]))
  {
    assert p != n.at;
    assert CellOf(n.kids) == CellOf(n.kids[k := kid]);
    assert Confined(h, f, n, k);
    SetKid(h, f, n, k, kid);
  }

  /** A new entry of a map is in place. */
  lemma EntryInPlace(h: Cells, n: Layout, k: string, v: Layout)
    requires n.Node? && Holds(h, n) && Sep(n) && Holds(h, v) && !In(v, n.at)
    ensures Holds(h[n.at := h[n.at][k := ValOf(v)]], Node(n.at, n.kids[k := v]))
  {
    var f := h[n.at := h[n.at][k := ValOf(v)]];
    HoldsFrame(h, f, v);
    assert f[n.at] == CellOf(n.kids[k := v]);
    SetKid(h, f, n, k, v);
  }

  /** A new provider is in place; what it holds may share cells with the rest. */
  lemma ProviderInPlace(h: Cells, n: Layout, name: string, v: Layout)
    requires HasProviders(n) && Holds(h, n) && Sep(n) && Holds(h, v) && !In(v, ProvidersOf(n).at)
    ensures var p := ProvidersOf(n).at;
            p < |h| && Holds(h[p := h[p][name := ValOf(v)]], WithProvider(n, name, v))
  {
    var models, providers := n.kids["models"], ProvidersOf(n);
    assert Holds(h, models) && Sep(models);
    assert Holds(h, providers) && Sep(providers);
    var p := providers.at;
    var f := h[p := h[p][name := ValOf(v)]];
    var providers' := Node(p, providers.kids[name := v]);
    EntryInPlace(h, providers, name, v);
    assert In(providers, p);
    InsideKid(h, f, p, models, "providers", providers');
    InsideKid(h, f, p, n, "models", Node(models.at, models.kids["providers" := providers']));
  }

  lemma ProviderTree(n: Layout, name: string, v: Layout)
    requires HasProviders(n) && Sep(n)
    ensures var c := Fields(n);
            && "models" in c && c["models"].Obj? && "providers" in c["models"].fields && c["models"].fields["providers"] == TreeOf(ProvidersOf(n))
            && Fields(WithProvider(n, name, v))
               == c["models" := Obj(c["models"].fields["providers" := Obj(Fields(ProvidersOf(n))[name := TreeOf(v)])])]
  {
    var models, providers := n.kids["models"], ProvidersOf(n);
    FieldsUpdate(providers, name, v);
    var providers' := Node(providers.at, providers.kids[name := v]);
    FieldsUpdate(models, "providers", providers');
    FieldsUpdate(n, "models", Node(models.at, models.kids["providers" := providers']));
    assert Fields(n)["models"] == TreeOf(models) && Fields(models)["providers"] == TreeOf(providers);
  }

  /******* The statements *******/

  /** `json.Marshal`: the tree below a value. */
  method Read(heap: Heap, v: Val, ghost n: Layout) returns (j: Json)
    requires Holds(heap.cells, n) && v == ValOf(n)
    ensures j == TreeOf(n)
    decreases n
  {
    if v.Leaf? {
      return v.j;
    }
    var cell := heap.cells[v.to];
    var t: Tree := map[];
    var rest := cell.Keys;
    while rest != {}
      invariant rest <= n.kids.Keys
      invariant t == map k | k in n.kids.Keys - rest :: TreeOf(n.kids[k])
      decreases |rest|
    {
      var k :| k in rest;
      var value := Read(heap, cell[k], n.kids[k]);
      t := t[k := value];
      rest := rest - {k};
    }
    return Obj(t);
  }

  function WithoutPolicy(c: Tree): Tree {
    SetAt(c, DEFAULTS, Obj(Defaults(c) - {"modelPolicy"}))
  }

  lemma PolicyDeleted(c: Tree)
    ensures DeleteAt(SetAt(c, DEFAULTS, Obj(Defaults(c))), POLICY) == WithoutPolicy(c)
  {
    var agents := Child(c, "agents");
    var d := Child(agents, "defaults");
    assert POLICY[1..] == ["defaults", "modelPolicy"] && POLICY[1..][1..] == ["modelPolicy"] && DEFAULTS[1..] == ["defaults"];
    assert SetAt(c, DEFAULTS, Obj(d)) == c["agents" := Obj(agents["defaults" := Obj(d)])];
    assert DeleteAt(d, ["modelPolicy"]) == d - {"modelPolicy"};
    assert DeleteAt(agents["defaults" := Obj(d)], ["defaults", "modelPolicy"]) == agents["defaults" := Obj(d - {"modelPolicy"})];
  }

  /** The maps for the defaults are made sure of and the model policy is deleted. */
  method DropPolicy(heap: Heap, root: nat, ghost h0: Cells, ghost n: Layout) returns (ghost n': Layout)
    requires n.Node? && Copied(h0, heap.cells, n, root, Fields(n))
    modifies heap
    ensures Copied(h0, heap.cells, n', root, WithoutPolicy(Fields(n)))
  {
    ghost var h := heap.cells;
    EnsureTwice(h, n, "agents", "defaults");
    BelowSize(h, n);
    EnsuredShape(n, "agents", "defaults", |h|);
    var agents := heap.EnsureNestedMap(root, "agents");
    var _ := heap.EnsureNestedMap(agents, "defaults");
    ghost var m := Ensured2(n, "agents", "defaults", |h|);
    ConfinedKeepsOld(h0, h, heap.cells, n, "agents");
    ghost var g := heap.cells;
    DropInPlace(g, m, POLICY);
    n' := RemoveLayout(m, POLICY);
    heap.DeleteNested(root, POLICY);
    EditKeepsPrivate(h0, g, heap.cells, m, n', Drop(POLICY), root);
    PolicyDeleted(Fields(n));
  }

  /** What the move of memory search makes of a config. */
  function Moved(c: Tree): Tree {
    if !HasMemorySearch(c) then c
    else if "memorySearch" in Defaults(c) then DeleteAt(c, SEARCH)
    else SetAt(DeleteAt(c, SEARCH), LEGACY_SEARCH, c["memory"].fields["search"])
  }

  function WithoutEmptyMemory(c: Tree): Tree {
    if "memory" in c && c["memory"] == Obj(map[]) then c - {"memory"} else c
  }

  predicate HasDefaults(c: Tree) {
    && "agents" in c && c["agents"].Obj?
    && "defaults" in c["agents"].fields && c["agents"].fields["defaults"].Obj?
  }

  lemma MovableTree(n: Layout)
    requires n.Node? && Sep(n)
    ensures HasDefaults(Fields(n)) && HasMemorySearch(Fields(n)) ==> Movable(n)
    ensures Movable(n) ==>
            && HasMemorySearch(Fields(n))
            && TreeOf(n.kids["memory"].kids["search"]) == Fields(n)["memory"].fields["search"]
            && Defaults(Fields(n)) == Fields(n.kids["agents"].kids["defaults"])
  {
    NodeOf(n, "agents");
    NodeOf(n, "memory");
    if "agents" in n.kids && n.kids["agents"].Node? {
      NodeOf(n.kids["agents"], "defaults");
    }
    if "memory" in n.kids && n.kids["memory"].Node? {
      NodeOf(n.kids["memory"], "search");
    }
  }

  /** A map in the tree is a map in the layout. */
  lemma NodeOf(n: Layout, k: string)
    requires n.Node? && Sep(n)
    ensures k in n.kids <==> k in Fields(n)
    ensures k in n.kids ==> Fields(n)[k] == TreeOf(n.kids[k]) && Sep(n.kids[k]) && (n.kids[k].Node? <==> Fields(n)[k].Obj?)
  {
  }

  /** The move where there is something to move. */
  method MoveFound(heap: Heap, root: nat, ghost h0: Cells, ghost n: Layout) returns (ghost n': Layout)
    requires n.Node? && Copied(h0, heap.cells, n, root, Fields(n)) && Movable(n)
    modifies heap
    ensures Copied(h0, heap.cells, n', root, Moved(Fields(n)))
  {
    ghost var h := heap.cells;
    ghost var s, d := n.kids["memory"].kids["search"], n.kids["agents"].kids["defaults"];
    MovableTree(n);
    MovableMaps(h, n);
    MovableCells(h, n);
    var agents := heap.cells[root]["agents"].to;
    var defaults := heap.cells[agents]["defaults"].to;
    var memory := heap.cells[root]["memory"].to;
    if "memorySearch" !in heap.cells[defaults] {
      n' := MoveInPlace(h0, h, n, root);
      heap.SetNestedValue(root, heap.cells[memory]["search"], LEGACY_SEARCH);
    } else {
      DropInPlace(h, n, SEARCH);
      n' := RemoveLayout(n, SEARCH);
      EditKeepsPrivate(h0, h, Remove(h, root, SEARCH), n, n', Drop(SEARCH), root);
    }
    heap.DeleteNested(root, SEARCH);
  }

  lemma MovableCells(h: Cells, n: Layout)
    requires Movable(n) && Holds(h, n) && Sep(n)
    ensures var m, d := n.kids["memory"], n.kids["agents"].kids["defaults"];
            && m.at < |h| && d.at < |h|
            && "search" in h[m.at] && h[m.at]["search"] == ValOf(m.kids["search"])
            && ("memorySearch" in h[d.at] <==> "memorySearch" in Fields(d))
  {
    var m, a := n.kids["memory"], n.kids["agents"];
    var d := a.kids["defaults"];
    assert Holds(h, m) && Holds(h, a) && Holds(h, d);
    assert h[d.at].Keys == d.kids.Keys == Fields(d).Keys;
  }

  /** The legacy place of memory search, the delete, and the delete of an empty memory map. */
  method MoveSearch(heap: Heap, root: nat, ghost h0: Cells, ghost n: Layout) returns (ghost n': Layout)
    requires n.Node? && Copied(h0, heap.cells, n, root, Fields(n)) && HasDefaults(Fields(n))
    modifies heap
    ensures Copied(h0, heap.cells, n', root, WithoutEmptyMemory(Moved(Fields(n))))
  {
    n' := n;
    SearchReadsTree(heap.cells, n);
    if HasSearchAt(heap.cells, root) {
      MovableTree(n);
      n' := MoveFound(heap, root, h0, n);
    }
    n' := DropEmptyMemory(heap, root, h0, n');
  }

  method DropEmptyMemory(heap: Heap, root: nat, ghost h0: Cells, ghost n: Layout) returns (ghost n': Layout)
    requires n.Node? && Copied(h0, heap.cells, n, root, Fields(n))
    modifies heap
    ensures Copied(h0, heap.cells, n', root, WithoutEmptyMemory(Fields(n)))
  {
    n' := n;
    NodeOf(n, "memory");
    EmptyMemoryCell(heap.cells, n);
    if "memory" in heap.cells[root] && heap.cells[root]["memory"].Ref? && heap.cells[heap.cells[root]["memory"].to] == map[] {
      ghost var h := heap.cells;
      DropInPlace(h, n, ["memory"]);
      n' := RemoveLayout(n, ["memory"]);
      heap.DeleteNested(root, ["memory"]);
      EditKeepsPrivate(h0, h, heap.cells, n, n', Drop(["memory"]), root);
    }
  }

  lemma EmptyMemoryCell(h: Cells, n: Layout)
    requires n.Node? && Holds(h, n) && Sep(n)
    ensures n.at < |h|
    ensures "memory" in h[n.at] && h[n.at]["memory"].Ref? ==> h[n.at]["memory"].to < |h|
    ensures ("memory" in h[n.at] && h[n.at]["memory"].Ref? && h[h[n.at]["memory"].to] == map[])
            <==> ("memory" in Fields(n) && Fields(n)["memory"] == Obj(map[]))
  {
    NodeOf(n, "memory");
    if "memory" in n.kids {
      var m := n.kids["memory"];
      assert h[n.at]["memory"] == ValOf(m) && Holds(h, m);
      if m.Node? {
        assert h[m.at].Keys == m.kids.Keys == Fields(m).Keys;
        assert h[m.at] == map[] <==> h[m.at].Keys == {};
        assert Fields(m) == map[] <==> Fields(m).Keys == {};
      }
    }
  }

  /** `gateway.controlUi.dangerouslyDisableDeviceAuth`. */
  method SetDeviceAuth(heap: Heap, root: nat, noPairing: bool, ghost h0: Cells, ghost n: Layout) returns (ghost n': Layout)
    requires n.Node? && Copied(h0, heap.cells, n, root, Fields(n))
    modifies heap
    ensures Copied(h0, heap.cells, n', root, SetAt(Fields(n), UI_NO_DEVICE_AUTH, Bool(noPairing)))
  {
    n' := PutPrivate(h0, heap.cells, n, root, UI_NO_DEVICE_AUTH, Atom(Bool(noPairing)));
    heap.SetNestedValue(root, Leaf(Bool(noPairing)), UI_NO_DEVICE_AUTH);
  }

  /******* The companion provider *******/

  lemma ProvidersTree(h: Cells, n: Layout)
    requires n.Node? && Holds(h, n) && Sep(n)
    ensures n.at < |h|
    ensures HasProviders(n) ==>
            && ProvidersOf(n).at < |h| && h[ProvidersOf(n).at] == CellOf(ProvidersOf(n).kids)
            && Holds(h, ProvidersOf(n)) && Sep(ProvidersOf(n))
            && "models" in h[n.at] && h[n.at]["models"] == Ref(n.kids["models"].at) && n.kids["models"].at < |h|
            && "providers" in h[n.kids["models"].at] && h[n.kids["models"].at]["providers"] == Ref(ProvidersOf(n).at)
            && "models" in Fields(n) && Fields(n)["models"].Obj? && "providers" in Fields(n)["models"].fields
            && Fields(n)["models"].fields["providers"] == TreeOf(ProvidersOf(n))
    ensures HasProviders(n) <==>
            "models" in Fields(n) && Fields(n)["models"].Obj? && Lookup(Fields(n)["models"].fields, "providers").Some?
            && Fields(n)["models"].fields["providers"].Obj?
  {
    NodeOf(n, "models");
    if "models" in n.kids && n.kids["models"].Node? {
      var m := n.kids["models"];
      assert Holds(h, m) && h[n.at]["models"] == ValOf(m);
      NodeOf(m, "providers");
      if "providers" in m.kids && m.kids["providers"].Node? {
        assert Holds(h, m.kids["providers"]) && h[m.at]["providers"] == ValOf(m.kids["providers"]);
      }
    }
  }

  /** The address of the providers map, if there is one. */
  function ProvidersAt(h: Cells, root: nat): Option<nat> {
    if root < |h| && "models" in h[root] && h[root]["models"].Ref? && h[root]["models"].to < |h|
       && "providers" in h[h[root]["models"].to] && h[h[root]["models"].to]["providers"].Ref?
    then Some(h[h[root]["models"].to]["providers"].to)
    else None
  }

  lemma ProvidersFound(h: Cells, n: Layout)
    requires n.Node? && Holds(h, n) && Sep(n)
    ensures ProvidersAt(h, n.at) == if HasProviders(n) then Some(ProvidersOf(n).at) else None
  {
    ProvidersTree(h, n);
    NodeOf(n, "models");
    if "models" in n.kids {
      var m := n.kids["models"];
      assert h[n.at]["models"] == ValOf(m);
      if m.Node? {
        assert Holds(h, m) && h[m.at] == CellOf(m.kids);
      }
    }
  }

  lemma ProviderApart(h: Cells, n: Layout, p: Layout, h0: Cells)
    requires HasProviders(n) && Holds(h, n) && Sep(n) && Above(n, |h0|)
    requires "openai" in ProvidersOf(n).kids && ProvidersOf(n).kids["openai"] == p && p.Node?
    ensures Holds(h, p) && Sep(p) && !In(p, ProvidersOf(n).at) && Above(p, |h0|)
  {
    ProvidersTree(h, n);
    var m, q := n.kids["models"], ProvidersOf(n);
    forall a | In(p, a) ensures a >= |h0| {
      assert In(q, a);
      assert In(m, a);
      assert In(n, a);
    }
  }

  lemma CompanionTree(n: Layout, v: Layout)
    requires HasProviders(n) && Sep(n)
    requires "openai" in ProvidersOf(n).kids && ProvidersOf(n).kids["openai"].Node? && "openai-codex" !in ProvidersOf(n).kids
    requires TreeOf(v) == CompanionEntry(Fields(ProvidersOf(n).kids["openai"]), "openai-codex")
    ensures Fields(WithProvider(n, "openai-codex", v)) == WithCompanions(Fields(n))
  {
    ProviderTree(n, "openai-codex", v);
    var q := ProvidersOf(n);
    assert Sep(n.kids["models"]) && Sep(q);
    NodeOf(q, "openai");
    NodeOf(q, "openai-codex");
  }

  /** The heap has only grown and holds the tree, in whatever cells. */
  ghost predicate HoldsAll(h0: Cells, h: Cells, n: Layout, root: nat, t: Tree) {
    h0 <= h && n.Node? && n.at == root && Holds(h, n) && Fields(n) == t
  }

  /** The companion entry: the provider merged with its wire format, in new cells that share the provider's nested maps. */
  method AddCompanion(heap: Heap, at: nat, provider: nat, ghost h0: Cells, ghost n: Layout) returns (ghost n': Layout)
    requires n.Node? && Copied(h0, heap.cells, n, n.at, Fields(n)) && HasProviders(n) && ProvidersOf(n).at == at
    requires "openai" in ProvidersOf(n).kids && "openai-codex" !in ProvidersOf(n).kids
    requires ProvidersOf(n).kids["openai"].Node? && ProvidersOf(n).kids["openai"].at == provider
    modifies heap
    ensures HoldsAll(h0, heap.cells, n', n.at, WithCompanions(Fields(n)))
  {
    ghost var h, p := heap.cells, ProvidersOf(n).kids["openai"];
    ProviderApart(h, n, p, h0);
    BelowSize(h, n);
    BelowSize(h, p);
    ProvidersTree(h, n);
    var override := map["api" := Str(WireFormat("openai-codex"))];
    var over, o := heap.Parse(override);
    HoldsLater(h, heap.cells, p);
    ghost var parsed := heap.cells;
    BelowSize(parsed, o);
    BelowSize(parsed, p);
    var entry, v := heap.Merge(provider, over, p, o);
    EntryApart(p, o, v, at, |h|, |parsed|);
    HoldsLater(h, heap.cells, n);
    ghost var merged := heap.cells;
    ProviderInPlace(merged, n, "openai-codex", v);
    CompanionTree(n, v);
    n' := WithProvider(n, "openai-codex", v);
    ProvidersAbove(n, |h0|);
    PrefixKept(h0, h, merged, at, merged[at]["openai-codex" := ValOf(v)]);
    heap.cells := heap.cells[at := heap.cells[at]["openai-codex" := Ref(entry)]];
  }

  lemma ProvidersAbove(n: Layout, floor: nat)
    requires HasProviders(n) && Above(n, floor)
    ensures ProvidersOf(n).at >= floor
  {
    var m, q := n.kids["models"], ProvidersOf(n);
    assert In(q, q.at);
    assert In(m, q.at);
    assert In(n, q.at);
  }

  /** The entry does not reach the providers map it is stored in. */
  lemma EntryApart(p: Layout, o: Layout, v: Layout, at: nat, floor: nat, free: nat)
    requires p.Node? && o.Node? && v.Node? && at < floor <= free
    requires Sep(p) && Sep(o) && Below(p, floor) && Below(o, free) && Above(o, floor) && !In(p, at)
    requires v.at >= free && MergedKids(p.kids, o.kids, {}, v.kids, free)
    ensures !In(v, at)
  {
    if In(v, at) {
      MergedReach(p, o, v, free, at);
    }
  }

  /** The loop over a copy of the providers, in any order. */
  method AddAllCompanions(heap: Heap, root: nat, ghost h0: Cells, ghost n: Layout) returns (ghost n': Layout)
    requires n.Node? && Copied(h0, heap.cells, n, root, Fields(n))
    modifies heap
    ensures HoldsAll(h0, heap.cells, n', root, WithCompanions(Fields(n)))
  {
    n' := n;
    NothingToAdd(n);
    ProvidersFound(heap.cells, n);
    ProvidersTree(heap.cells, n);
    var found := ProvidersAt(heap.cells, root);
    if found.None? {
      return;
    }
    n' := WalkProviders(heap, found.value, h0, n);
  }

  method WalkProviders(heap: Heap, at: nat, ghost h0: Cells, ghost n: Layout) returns (ghost n': Layout)
    requires n.Node? && Copied(h0, heap.cells, n, n.at, Fields(n)) && HasProviders(n) && ProvidersOf(n).at == at < |heap.cells|
    requires !AddsCompanion(n) ==> WithCompanions(Fields(n)) == Fields(n)
    modifies heap
    ensures HoldsAll(h0, heap.cells, n', n.at, WithCompanions(Fields(n)))
  {
    n' := n;
    var configured := heap.cells[at];
    var rest := configured.Keys;
    ghost var h, adds := heap.cells, AddsCompanion(n);
    CompanionWanted(h, n);
    while rest != {}
      invariant rest <= configured.Keys
      invariant if "openai" in rest || !adds then heap.cells == h && n' == n
                else HoldsAll(h0, heap.cells, n', n.at, WithCompanions(Fields(n)))
      decreases |rest|
    {
      var name :| name in rest;
      rest := rest - {name};
      if configured[name].Ref? && name == "openai" {
        if "openai-codex" !in heap.cells[at] {
          n' := AddCompanion(heap, at, configured[name].to, h0, n);
        }
      }
    }
  }

  /** A companion is missing. */
  ghost predicate AddsCompanion(n: Layout) {
    && HasProviders(n) && "openai" in ProvidersOf(n).kids && ProvidersOf(n).kids["openai"].Node?
    && "openai-codex" !in ProvidersOf(n).kids
  }

  lemma CompanionWanted(h: Cells, n: Layout)
    requires HasProviders(n) && Holds(h, n) && Sep(n)
    ensures ProvidersOf(n).at < |h|
    ensures var cell := h[ProvidersOf(n).at];
            && (AddsCompanion(n) <==> "openai" in cell && cell["openai"].Ref? && "openai-codex" !in cell)
            && (AddsCompanion(n) ==> cell["openai"] == Ref(ProvidersOf(n).kids["openai"].at))
  {
    ProvidersTree(h, n);
  }

  lemma NothingToAdd(n: Layout)
    requires n.Node? && Sep(n)
    ensures !AddsCompanion(n) ==> WithCompanions(Fields(n)) == Fields(n)
  {
    NodeOf(n, "models");
    if "models" in n.kids && n.kids["models"].Node? {
      var m := n.kids["models"];
      NodeOf(m, "providers");
      if "providers" in m.kids && m.kids["providers"].Node? {
        var q := m.kids["providers"];
        NodeOf(q, "openai");
        NodeOf(q, "openai-codex");
        assert Fields(m)["providers" := Fields(m)["providers"]] == Fields(m);
        assert Fields(n)["models" := Fields(n)["models"]] == Fields(n);
      }
    }
  }

  /******* The whole rewrite *******/

  lemma RewriteIsLegacy(c: Tree, noPairing: bool)
    ensures HasDefaults(WithoutPolicy(c))
    ensures WithCompanions(SetAt(WithoutEmptyMemory(Moved(WithoutPolicy(c))), UI_NO_DEVICE_AUTH, Bool(noPairing))) == Legacy(c, noPairing)
  {
    MovedIsDropped(c);
  }

  /** Where nothing is moved: no search in memory, or a legacy value is there already. */
  lemma NotMoved(c: Tree, c1: Tree)
    requires Lookup(c1, "memory") == Lookup(c, "memory")
    ensures !HasMemorySearch(c) ==> WithoutEmptyMemory(c1) == DropSearch(c1)
    ensures HasMemorySearch(c) ==> WithoutEmptyMemory(DeleteAt(c1, SEARCH)) == DropSearch(c1)
  {
    assert SEARCH[1..] == ["search"];
    if HasMemoryMap(c) {
      if HasMemorySearch(c) {
        assert DeleteAt(c1, SEARCH) == c1["memory" := Obj(c["memory"].fields - {"search"})];
      } else {
        assert c["memory"].fields - {"search"} == c["memory"].fields;
        assert c1["memory" := c1["memory"]] == c1;
      }
    }
  }

  lemma DeleteCommutes(c: Tree, d: Tree)
    ensures WithoutEmptyMemory(SetAt(DeleteAt(c, SEARCH), DEFAULTS, Obj(d))) == SetAt(WithoutEmptyMemory(DeleteAt(c, SEARCH)), DEFAULTS, Obj(d))
  {
    SetDefaultsShape(DeleteAt(c, SEARCH), d);
    SetDefaultsShape(WithoutEmptyMemory(DeleteAt(c, SEARCH)), d);
  }

  lemma DropCommutes(c: Tree, d: Tree)
    ensures DropSearch(SetAt(c, DEFAULTS, Obj(d))) == SetAt(DropSearch(c), DEFAULTS, Obj(d))
  {
    SetDefaultsShape(c, d);
    SetDefaultsShape(DropSearch(c), d);
  }

  lemma SearchLeavesDefaults(c: Tree)
    ensures Defaults(DeleteAt(c, SEARCH)) == Defaults(c)
  {
  }

  lemma MovedIsDropped(c: Tree)
    ensures HasDefaults(WithoutPolicy(c))
    ensures WithoutEmptyMemory(Moved(WithoutPolicy(c))) == DropSearch(SetAt(c, DEFAULTS, Obj(LegacyDefaults(c))))
  {
    var d := Defaults(c) - {"modelPolicy"};
    var c1 := WithoutPolicy(c);
    SetDefaultsShape(c, d);
    NotMoved(c, c1);
    if HasMemorySearch(c) && "memorySearch" !in d {
      var s := c["memory"].fields["search"];
      MovedWithSearch(c, c1, d, s);
    }
  }

  lemma MovedWithSearch(c: Tree, c1: Tree, d: Tree, s: Json)
    requires c1 == SetAt(c, DEFAULTS, Obj(d)) && HasMemorySearch(c1)
    ensures WithoutEmptyMemory(SetAt(DeleteAt(c1, SEARCH), LEGACY_SEARCH, s)) == DropSearch(SetAt(c, DEFAULTS, Obj(d["memorySearch" := s])))
  {
    var without, e := DeleteAt(c1, SEARCH), d["memorySearch" := s];
    assert LEGACY_SEARCH == DEFAULTS + ["memorySearch"];
    SetDefaultsShape(c, d);
    SearchLeavesDefaults(c1);
    SetInDefaults(without, "memorySearch", s);
    DeleteCommutes(c1, e);
    DropCommutes(c1, e);
    NotMoved(c1, c1);
    SetDefaultsTwice(c, d, e);
  }

  /**
   `legacyOperatorJSON` on the heap: no cell of the current config, or of anything else that
   was there, is written, and the result is the legacy config.
   */
  method RewriteLegacy(heap: Heap, current: nat, noPairing: bool, ghost n: Layout) returns (root: nat, ghost n': Layout)
    requires n.Node? && n.at == current && Holds(heap.cells, n) && Sep(n)
    modifies heap
    ensures old(heap.cells) <= heap.cells
    ensures n'.Node? && n'.at == root && Holds(heap.cells, n') && Fields(n') == Legacy(Fields(n), noPairing)
  {
    ghost var h0 := heap.cells;
    var encoded := Read(heap, Ref(current), n);
    root, n' := heap.Parse(encoded.fields);
    n' := DropPolicy(heap, root, h0, n');
    RewriteIsLegacy(Fields(n), noPairing);
    n' := MoveSearch(heap, root, h0, n');
    n' := SetDeviceAuth(heap, root, noPairing, h0, n');
    n' := AddAllCompanions(heap, root, h0, n');
  }
}
