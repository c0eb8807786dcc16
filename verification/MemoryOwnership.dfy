/**
 Who owns memory.search?  The enrichment merges the parsed user config into the template,
 edits the merged config in place, injects memory search and then asks the parsed user
 config whether the user set memory.search.  `deepMerge` may have placed the user's own
 memory map into the merged config, so that answer can be the operator's own write.
 */
module MemoryOwnership {
  import opened Basics
  import opened JsonTree
  import opened ConfigPipeline
  import opened GoHeap

  /** One in-place change of the config: `setNestedValue` with a new value, or `delete`. */
  datatype Edit = Put(path: seq<string>, value: Json) | Drop(path: seq<string>)

  predicate OffMemory(e: Edit) {
    e.path != [] && e.path[0] != "memory"
  }

  function ApplyEdit(c: Tree, e: Edit): Tree
    requires e.path != []
  {
    match e
    case Put(path, value) => SetAt(c, path, value)
    case Drop(path) => DeleteAt(c, path)
  }

  function ApplyEdits(c: Tree, edits: seq<Edit>): Tree
    requires forall i | 0 <= i < |edits| :: OffMemory(edits[i])
  {
    if edits == [] then c
    else
      assert OffMemory(edits[|edits| - 1]);
      ApplyEdit(ApplyEdits(c, edits[..|edits| - 1]), edits[|edits| - 1])
  }

  predicate HasMemoryMap(c: Tree) {
    "memory" in c && c["memory"].Obj?
  }

  /******* Edits on the heap *******/

  /** Entries under other keys are the same maps as before. */
  ghost predicate SameElsewhere(n: Layout, n': Layout, k: string)
    requires n.Node? && n'.Node?
  {
    forall l | l != k :: (l in n'.kids <==> l in n.kids) && (l in n.kids ==> n'.kids[l] == n.kids[l])
  }

  /** A map under the key is still the same map. */
  ghost predicate SameHead(n: Layout, n': Layout, k: string)
    requires n.Node? && n'.Node?
  {
    k in n.kids && n.kids[k].Node? ==> k in n'.kids && ValOf(n'.kids[k]) == ValOf(n.kids[k])
  }

  ghost predicate EditedWell(h: Cells, g: Cells, n: Layout, n': Layout, e: Edit)
    requires n.Node? && e.path != []
  {
    && n'.Node? && n'.at == n.at && Holds(g, n') && Sep(n')
    && Fields(n') == ApplyEdit(Fields(n), e)
    && Confined(h, g, n, e.path[0])
    && (forall a | In(n', a) :: In(n, a) || a >= |h|)
    && SameElsewhere(n, n', e.path[0])
    && (|e.path| > 1 ==> SameHead(n, n', e.path[0]))
  }

  lemma DropInPlace(h: Cells, n: Layout, path: seq<string>)
    requires n.Node? && path != [] && Holds(h, n) && Sep(n)
    ensures EditedWell(h, Remove(h, n.at, path), n, RemoveLayout(n, path), Drop(path))
  {
    RemoveHolds(h, n, path);
    RemoveSep(n, path);
    forall a | In(RemoveLayout(n, path), a) ensures In(n, a) {
      RemoveReach(n, path, a);
    }
  }

  lemma PutInPlace(h: Cells, g: Cells, n: Layout, path: seq<string>, v: Layout)
    requires n.Node? && path != [] && Holds(h, n) && Sep(n)
    requires h <= g && Holds(g, v) && Sep(v) && Above(v, |h|)
    ensures Walkable(g, n.at, path)
    ensures EditedWell(h, Store(g, n.at, path, ValOf(v)), n, StoreLayout(n, path, v, |g|), Put(path, TreeOf(v)))
  {
    BelowSize(h, n);
    HoldsLater(h, g, n);
    StoreRefinesSet(g, n, path, v);
    PutWell(h, g, Store(g, n.at, path, ValOf(v)), n, StoreLayout(n, path, v, |g|), path, v);
  }

  lemma PutWell(h: Cells, g: Cells, f: Cells, n: Layout, n': Layout, path: seq<string>, v: Layout)
    requires n.Node? && n'.Node? && path != [] && h <= g && Above(v, |h|)
    requires n'.at == n.at && Holds(f, n') && Sep(n') && Fields(n') == SetAt(Fields(n), path, TreeOf(v))
    requires Confined(g, f, n, path[0]) && (forall a | In(n', a) :: In(n, a) || In(v, a) || a >= |g|)
    requires SameElsewhere(n, n', path[0]) && (|path| > 1 ==> SameHead(n, n', path[0]))
    ensures EditedWell(h, f, n, n', Put(path, TreeOf(v)))
  {
    assert forall a | In(n', a) :: In(n, a) || a >= |h|;
    assert Confined(h, f, n, path[0]) by {
      assert forall a | 0 <= a < |h| :: h[a] == g[a];
    }
  }

  method EditInPlace(heap: Heap, root: nat, e: Edit, ghost n: Layout) returns (ghost n': Layout)
    requires e.path != [] && n.Node? && n.at == root && Holds(heap.cells, n) && Sep(n)
    modifies heap
    ensures EditedWell(old(heap.cells), heap.cells, n, n', e)
  {
    match e
    case Put(path, value) =>
      var v, vn := heap.ParseValue(value);
      PutInPlace(old(heap.cells), heap.cells, n, path, vn);
      n' := StoreLayout(n, path, vn, |heap.cells|);
      heap.SetNestedValue(root, v, path);
    case Drop(path) =>
      DropInPlace(heap.cells, n, path);
      n' := RemoveLayout(n, path);
      heap.DeleteNested(root, path);
  }

  /******* What the user's own maps see *******/

  /** The cell is outside the config, or is the config's own memory map. */
  ghost predicate OutsideOrMemory(n: Layout, a: int)
    requires n.Node?
  {
    In(n, a) ==> "memory" in n.kids && n.kids["memory"].Node? && n.kids["memory"].at == a
  }

  /** An edit under another key neither changes such a cell nor moves it. */
  lemma EditLeavesAlone(h: Cells, g: Cells, n: Layout, n': Layout, e: Edit, a: int)
    requires n.Node? && OffMemory(e) && Holds(h, n) && Sep(n) && EditedWell(h, g, n, n', e)
    requires 0 <= a < |h| && OutsideOrMemory(n, a)
    ensures |h| <= |g| && g[a] == h[a] && OutsideOrMemory(n', a)
  {
    var k := e.path[0];
    assert In(n, n.at);
    assert !Touched(n, k, a) by {
      assert Touched(n, k, a) ==> In(n, a);
      if In(n, a) {
        var m := n.kids["memory"];
        assert In(m, a);
        assert k in n.kids ==> Apart(n.kids[k], m);
      }
    }
  }

  method EditAll(heap: Heap, root: nat, edits: seq<Edit>, ghost n: Layout, ghost u: nat, ghost m: nat) returns (ghost n': Layout)
    requires forall i | 0 <= i < |edits| :: OffMemory(edits[i])
    requires n.Node? && n.at == root && Holds(heap.cells, n) && Sep(n)
    requires u < |heap.cells| && m < |heap.cells| && OutsideOrMemory(n, u) && OutsideOrMemory(n, m)
    modifies heap
    ensures n'.Node? && n'.at == root && Holds(heap.cells, n') && Sep(n')
    ensures Fields(n') == ApplyEdits(Fields(n), edits)
    ensures |old(heap.cells)| <= |heap.cells|
    ensures heap.cells[u] == old(heap.cells[u]) && heap.cells[m] == old(heap.cells[m])
    ensures OutsideOrMemory(n', u) && OutsideOrMemory(n', m)
    ensures SameMemory(n, n')
  {
    n' := n;
    for i := 0 to |edits|
      invariant n'.Node? && n'.at == root && Holds(heap.cells, n') && Sep(n')
      invariant Fields(n') == ApplyEdits(Fields(n), edits[..i])
      invariant |old(heap.cells)| <= |heap.cells|
      invariant heap.cells[u] == old(heap.cells[u]) && heap.cells[m] == old(heap.cells[m])
      invariant OutsideOrMemory(n', u) && OutsideOrMemory(n', m)
      invariant SameMemory(n, n')
    {
      ghost var before, was := heap.cells, n';
      n' := EditInPlace(heap, root, edits[i], was);
      EditLeavesAlone(before, heap.cells, was, n', edits[i], u);
      EditLeavesAlone(before, heap.cells, was, n', edits[i], m);
      assert edits[..i + 1][..i] == edits[..i];
    }
    assert edits[..|edits|] == edits;
  }

  ghost predicate SameMemory(n: Layout, n': Layout)
    requires n.Node? && n'.Node?
  {
    ("memory" in n'.kids <==> "memory" in n.kids) && ("memory" in n.kids ==> n'.kids["memory"] == n.kids["memory"])
  }

  /******* The flag *******/

  /** `userHasMemorySearchConfig` for the 7.2 schema. */
  function HasSearchAt(h: Cells, root: nat): bool {
    root < |h| && "memory" in h[root] && h[root]["memory"].Ref?
    && h[root]["memory"].to < |h| && "search" in h[h[root]["memory"].to]
  }

  lemma SearchReadsTree(h: Cells, n: Layout)
    requires n.Node? && Holds(h, n) && Sep(n)
    ensures HasSearchAt(h, n.at) == HasMemorySearch(Fields(n))
    ensures ("memory" in n.kids && n.kids["memory"].Node?) <==> HasMemoryMap(Fields(n))
  {
    if "memory" in n.kids {
      var kid := n.kids["memory"];
      assert h[n.at]["memory"] == ValOf(kid) && Fields(n)["memory"] == TreeOf(kid);
      assert Holds(h, kid) && Sep(kid);
      if kid.Node? {
        assert Fields(kid).Keys == kid.kids.Keys && h[kid.at].Keys == kid.kids.Keys;
      }
    }
  }

  /** The user's memory map, or the user's root where there is none. */
  ghost function MemoryCell(nu: Layout): nat
    requires nu.Node?
  {
    if "memory" in nu.kids && nu.kids["memory"].Node? then nu.kids["memory"].at else nu.at
  }

  ghost predicate Shares(n: Layout, nu: Layout)
    requires n.Node? && nu.Node?
  {
    && "memory" in n.kids && n.kids["memory"].Node? && "memory" in nu.kids && nu.kids["memory"].Node?
    && n.kids["memory"].at == nu.kids["memory"].at
  }

  /** The merge takes over the user's memory map exactly when the template has none to merge it with. */
  lemma MergeShares(nt: Layout, nu: Layout, n: Layout, free: nat)
    requires nt.Node? && nu.Node? && n.Node? && MergedKids(nt.kids, nu.kids, {}, n.kids, free)
    requires Sep(nt) && Sep(nu) && Sep(n) && Below(nt, free) && Below(nu, free) && Apart(nt, nu) && n.at >= free
    ensures !In(n, nu.at)
    ensures OutsideOrMemory(n, MemoryCell(nu))
    ensures In(n, MemoryCell(nu)) <==> Shares(n, nu)
    ensures Shares(n, nu) <==>
            ("memory" in nu.kids && nu.kids["memory"].Node? && !("memory" in nt.kids && nt.kids["memory"].Node?))
  {
    assert In(nu, nu.at);
    if In(n, nu.at) {
      MergedReach(nt, nu, n, free, nu.at);
    }
    if "memory" in nu.kids && nu.kids["memory"].Node? {
      var m := nu.kids["memory"].at;
      assert In(nu.kids["memory"], m);
      KidIn(nu, "memory", m);
      if In(n, m) {
        UserCellInMerge(nt, nu, n, free, "memory", m);
      }
      if Shares(n, nu) {
        assert In(n.kids["memory"], m);
      }
    }
  }

  /** A cell of the user's config that reaches the merge does so under its own key. */
  lemma UserCellInMerge(nt: Layout, nu: Layout, n: Layout, free: nat, k: string, a: int)
    requires nt.Node? && nu.Node? && n.Node? && MergedKids(nt.kids, nu.kids, {}, n.kids, free)
    requires Sep(nt) && Sep(nu) && Below(nu, free) && Apart(nt, nu) && n.at >= free
    requires k in nu.kids && In(nu.kids[k], a) && In(n, a)
    ensures k in n.kids && In(n.kids[k], a)
    ensures nu.kids[k].Node? && nu.kids[k].at == a ==> n.kids[k] == nu.kids[k]
  {
    KidIn(nu, k, a);
    var l :| l in n.kids && In(n.kids[l], a);
    assert l in nt.kids && In(nt.kids[l], a) ==> In(nt, a);
    assert l in nu.kids ==> l == k || Apart(nu.kids[l], nu.kids[k]);
    if l in nu.kids {
      FromEither(nt, nu, l, n.kids[l], free, a);
    }
  }

  method ParseAndMerge(template: Tree, raw: Tree)
    returns (heap: Heap, root: nat, user: nat, ghost n: Layout, ghost nu: Layout)
    ensures fresh(heap)
    ensures n.Node? && n.at == root && Holds(heap.cells, n) && Sep(n) && Fields(n) == DeepMerge(template, raw)
    ensures nu.Node? && nu.at == user && Holds(heap.cells, nu) && Sep(nu) && Fields(nu) == raw
    ensures !In(n, user) && OutsideOrMemory(n, MemoryCell(nu)) && (In(n, MemoryCell(nu)) <==> Shares(n, nu))
    ensures Shares(n, nu) <==> HasMemoryMap(raw) && !HasMemoryMap(template)
  {
    heap := new Heap();
    var config, nt := heap.Parse(template);
    BelowSize(heap.cells, nt);
    ghost var afterTemplate := heap.cells;
    user, nu := heap.Parse(raw);
    HoldsLater(afterTemplate, heap.cells, nt);
    BelowSize(heap.cells, nt);
    BelowSize(heap.cells, nu);
    ghost var parsed := heap.cells;
    root, n := heap.Merge(config, user, nt, nu);
    MergeShares(nt, nu, n, |parsed|);
    HoldsLater(parsed, heap.cells, nu);
    SearchReadsTree(heap.cells, nu);
    SearchReadsTree(parsed, nt);
  }

  function SearchEdit(inp: Inputs): Edit {
    match inp.embedding
    case Some(adapter) => Put(["memory", "search", "provider"], Str(adapter))
    case None => Put(["memory", "search", "enabled"], Bool(false))
  }

  /** After the operator's write the memory map has search; it is the old map if there was one. */
  lemma WriteIsSeen(h: Cells, g: Cells, n: Layout, n': Layout, inp: Inputs)
    requires n.Node? && Holds(h, n) && Sep(n) && EditedWell(h, g, n, n', SearchEdit(inp))
    ensures HasSearchAt(g, n.at)
    ensures HasMemoryMap(Fields(n)) ==> "memory" in g[n.at] && "memory" in h[n.at] && g[n.at]["memory"] == h[n.at]["memory"]
  {
    var path := SearchEdit(inp).path;
    assert path[1..][0] == "search" && path[1..] != [] && |path| == 3;
    assert HasMemorySearch(Fields(n'));
    SearchReadsTree(g, n');
    SearchReadsTree(h, n);
    assert SameHead(n, n', "memory");
  }

  /** `injectMemorySearch` on the heap. */
  method InjectSearch(heap: Heap, root: nat, inp: Inputs, ghost n: Layout) returns (ghost n': Layout)
    requires n.Node? && n.at == root && Holds(heap.cells, n) && Sep(n)
    modifies heap
    ensures n'.Node? && n'.at == root && Holds(heap.cells, n') && Fields(n') == InjectMemorySearch(Fields(n), inp)
    ensures |old(heap.cells)| <= |heap.cells|
    ensures forall a | 0 <= a < |old(heap.cells)| && !In(n, a) :: heap.cells[a] == old(heap.cells)[a]
    ensures HasMemoryMap(Fields(n)) ==> heap.cells[root]["memory"] == old(heap.cells)[root]["memory"]
    ensures HasSearchAt(heap.cells, root)
    ensures HasMemorySearch(Fields(n)) ==> heap.cells == old(heap.cells)
  {
    SearchReadsTree(heap.cells, n);
    n' := n;
    if !HasSearchAt(heap.cells, root) {
      n' := EditInPlace(heap, root, SearchEdit(inp), n);
      WriteIsSeen(old(heap.cells), heap.cells, n, n', inp);
    }
  }

  /** The user's config sees the operator's write exactly when it shares the memory map. */
  lemma FlagAfter(h: Cells, g: Cells, root: nat, user: nat, m: nat, shared: bool)
    requires user < |h| <= |g| && m < |h| && root < |g| && g[user] == h[user] && MemoryRef(h, user, m)
    requires if shared then "memory" in h[user] && h[user]["memory"] == Ref(m) && "memory" in g[root] && g[root]["memory"] == Ref(m)
             else g[m] == h[m]
    requires HasSearchAt(g, root)
    ensures HasSearchAt(g, user) <==> HasSearchAt(h, user) || shared
  {
  }

  /** The memory map, if the user has one, is at m. */
  predicate MemoryRef(h: Cells, user: nat, m: nat) {
    user < |h| && ("memory" in h[user] && h[user]["memory"].Ref? ==> h[user]["memory"].to == m)
  }

  /** What the flag comes to: the user's search, or the operator's own write to the user's memory map. */
  predicate OwnsFlag(template: Tree, raw: Tree) {
    HasMemorySearch(raw) || (HasMemoryMap(raw) && !HasMemoryMap(template))
  }

  /**
   The flag that `enrichConfigAndNetworkPolicy` hands to the memory stack.  It differs from
   a fresh reading of the raw config exactly when the raw config has a memory map without
   search and the template has no memory map; then the operator's own write answers.  The
   edits stand for the steps between the merge and the memory search.
   */
  method OwnershipFlag(template: Tree, raw: Tree, edits: seq<Edit>, inp: Inputs)
    returns (owns: bool, heap: Heap, root: nat, ghost n: Layout)
    requires forall i | 0 <= i < |edits| :: OffMemory(edits[i])
    ensures owns == OwnsFlag(template, raw)
    ensures owns != HasMemorySearch(raw) <==>
            HasMemoryMap(raw) && !HasMemorySearch(raw) && !HasMemoryMap(template)
    ensures n.Node? && n.at == root && Holds(heap.cells, n)
    ensures Fields(n) == InjectMemorySearch(ApplyEdits(DeepMerge(template, raw), edits), inp)
  {
    var user;
    ghost var nu;
    heap, root, user, n, nu := ParseAndMerge(template, raw);
    MemoryCellIn(heap.cells, nu);
    SearchReadsTree(heap.cells, nu);
    ghost var merged := n;
    ghost var m := MemoryCell(nu);
    n := EditAll(heap, root, edits, merged, user, m);
    ghost var edited, was := heap.cells, n;
    StillShares(merged, was, nu);
    if Shares(was, nu) {
      SharedRef(edited, was, nu);
    }
    n := InjectSearch(heap, root, inp, was);
    FlagAfter(edited, heap.cells, root, user, m, Shares(was, nu));
    owns := HasSearchAt(heap.cells, user);
  }

  lemma SharedRef(h: Cells, n: Layout, nu: Layout)
    requires n.Node? && nu.Node? && Holds(h, n) && Sep(n) && Shares(n, nu)
    ensures HasMemoryMap(Fields(n)) && "memory" in h[n.at] && h[n.at]["memory"] == Ref(MemoryCell(nu))
  {
    SearchReadsTree(h, n);
  }

  lemma StillShares(n: Layout, n': Layout, nu: Layout)
    requires n.Node? && n'.Node? && nu.Node? && SameMemory(n, n') && (In(n, MemoryCell(nu)) <==> Shares(n, nu))
    requires !In(n, nu.at) && OutsideOrMemory(n', MemoryCell(nu)) && OutsideOrMemory(n', nu.at)
    ensures Shares(n', nu) <==> Shares(n, nu)
    ensures !In(n', nu.at) && (In(n', MemoryCell(nu)) <==> Shares(n', nu))
  {
    if Shares(n', nu) {
      assert In(n'.kids["memory"], MemoryCell(nu));
    }
  }

  lemma MemoryCellIn(h: Cells, nu: Layout)
    requires nu.Node? && Holds(h, nu)
    ensures MemoryCell(nu) < |h| && MemoryRef(h, nu.at, MemoryCell(nu))
    ensures "memory" in nu.kids && nu.kids["memory"].Node? ==> "memory" in h[nu.at] && h[nu.at]["memory"] == Ref(MemoryCell(nu))
  {
    if "memory" in nu.kids && nu.kids["memory"].Node? {
      assert Holds(h, nu.kids["memory"]);
    }
  }

  /******* The steps before the memory search are such edits *******/

  ghost predicate ByEdits(c: Tree, d: Tree) {
    exists edits: seq<Edit> :: (forall i | 0 <= i < |edits| :: OffMemory(edits[i])) && ApplyEdits(c, edits) == d
  }

  lemma NoEdits(c: Tree)
    ensures ByEdits(c, c)
  {
    var none: seq<Edit> := [];
    assert ApplyEdits(c, none) == c;
  }

  lemma OneMoreEdit(c: Tree, d: Tree, e: Edit)
    requires ByEdits(c, d) && OffMemory(e)
    ensures ByEdits(c, ApplyEdit(d, e))
  {
    var edits: seq<Edit> :| (forall i | 0 <= i < |edits| :: OffMemory(edits[i])) && ApplyEdits(c, edits) == d;
    var more := edits + [e];
    assert more[..|more| - 1] == edits;
    assert ApplyEdits(c, more) == ApplyEdit(d, e);
  }

  lemma OneMorePut(c: Tree, d: Tree, path: seq<string>, v: Json)
    requires ByEdits(c, d) && path != [] && path[0] != "memory"
    ensures ByEdits(c, SetAt(d, path, v))
  {
    OneMoreEdit(c, d, Put(path, v));
  }

  lemma {:induction false} PluginsByEdits(c: Tree, d: Tree, ids: seq<string>)
    requires ByEdits(c, d)
    ensures ByEdits(c, InjectProviderPlugins(d, ids))
    decreases |ids|
  {
    if ids != [] {
      var init := ids[..|ids| - 1];
      PluginsByEdits(c, d, init);
      var path := ["plugins", "entries", ids[|ids| - 1]];
      DefaultIsWriteOrNothing(InjectProviderPlugins(d, init), path, ENABLED);
      OneMorePut(c, InjectProviderPlugins(d, init), path, ENABLED);
    }
  }

  lemma InfrastructureByEdits(c: Tree)
    ensures ByEdits(c, EnforceInfrastructureKeys(c))
  {
    NoEdits(c);
    OneMorePut(c, c, MODE, Str("local"));
    var c1 := SetAt(c, MODE, Str("local"));
    OneMorePut(c, c1, BIND, Str("lan"));
    var c2 := SetAt(c1, BIND, Str("lan"));
    OneMorePut(c, c2, PORT, Num(18789.0));
    OneMorePut(c, SetAt(c2, PORT, Num(18789.0)), UI_ENABLED, Bool(true));
  }

  lemma ProxiesByEdits(c: Tree, d: Tree)
    requires ByEdits(c, d)
    ensures ByEdits(c, DisableUpdateCheck(EnforceTrustedProxies(d)))
  {
    OneMorePut(c, d, TRUSTED, StringArr(TrustedList(d)));
    OneMorePut(c, EnforceTrustedProxies(d), CHECK_ON_START, Bool(false));
  }

  lemma PersonalityByEdits(c: Tree, d: Tree, inp: Inputs)
    requires ByEdits(c, d)
    ensures ByEdits(c, InjectRouteHost(SkipDefaultPersonality(d, inp), inp))
  {
    OneMorePut(c, d, ["agents", "defaults", "skipOptionalBootstrapFiles"], StringArr(["SOUL.md", "IDENTITY.md"]));
    var d1 := SkipDefaultPersonality(d, inp);
    OneMorePut(c, d1, UI_ORIGINS, StringArr(OriginList(d1, inp)));
  }

  lemma AuthByEdits(c: Tree, d: Tree, inp: Inputs)
    requires ByEdits(c, d)
    ensures ByEdits(c, InjectAuthMode(d, inp))
  {
    OneMorePut(c, d, AUTH, AuthMode(inp));
    OneMoreEdit(c, SetAt(d, AUTH, AuthMode(inp)), Drop(UI_NO_DEVICE_AUTH));
  }

  lemma GatewayByEdits(c: Tree, inp: Inputs)
    ensures ByEdits(c, GatewaySteps(c, inp))
  {
    var c1 := EnforceInfrastructureKeys(c);
    InfrastructureByEdits(c);
    var c2 := DisableUpdateCheck(EnforceTrustedProxies(c1));
    ProxiesByEdits(c, c1);
    PersonalityByEdits(c, c2, inp);
    AuthByEdits(c, InjectRouteHost(SkipDefaultPersonality(c2, inp), inp), inp);
  }

  /** Every step between the merge and the memory search only edits below other keys. */
  lemma EarlyStepsAreEdits(c: Tree, inp: Inputs, allow: set<string> -> seq<string>, providers: Tree)
    ensures var c1 := InjectProviders(GatewaySteps(c, inp), providers);
            ByEdits(c, InjectModelCatalog(InjectProviderPlugins(c1, inp.vertexPlugins), inp, allow))
  {
    var c0 := GatewaySteps(c, inp);
    GatewayByEdits(c, inp);
    OneMorePut(c, c0, ["models", "providers"], Obj(providers));
    PluginsByEdits(c, InjectProviders(c0, providers), inp.vertexPlugins);
    CatalogByEdits(c, InjectProviderPlugins(InjectProviders(c0, providers), inp.vertexPlugins), inp, allow);
  }

  /** Edits lead from c to d with agents.defaults changed to `defaults`, or to d itself where they are unchanged. */
  ghost predicate DefaultsByEdits(c: Tree, d: Tree, defaults: Tree) {
    ByEdits(c, SetAt(d, DEFAULTS, Obj(defaults))) || (ByEdits(c, d) && defaults == Defaults(d))
  }

  lemma OneMoreBelow(c: Tree, d: Tree, defaults: Tree, q: seq<string>, v: Json)
    requires DefaultsByEdits(c, d, defaults) && q != []
    ensures DefaultsByEdits(c, d, SetAt(defaults, q, v))
  {
    if ByEdits(c, SetAt(d, DEFAULTS, Obj(defaults))) {
      var e := SetAt(d, DEFAULTS, Obj(defaults));
      OneMorePut(c, e, DEFAULTS + q, v);
      SetBelowDefaults(e, q, v);
      SetDefaultsShape(d, defaults);
      SetDefaultsTwice(d, defaults, SetAt(defaults, q, v));
    } else {
      OneMorePut(c, d, DEFAULTS + q, v);
      SetBelowDefaults(d, q, v);
    }
  }

  /** One entry of a map among the defaults. */
  function WithEntry(defaults: Tree, a: string, k: string, v: Json): Tree {
    defaults[a := Obj(Child(defaults, a)[k := v])]
  }

  lemma OneMoreEntry(c: Tree, d: Tree, defaults: Tree, a: string, k: string, v: Json)
    requires DefaultsByEdits(c, d, defaults)
    ensures DefaultsByEdits(c, d, WithEntry(defaults, a, k, v))
  {
    OneMoreBelow(c, d, defaults, [a, k], v);
    assert [a, k][1..] == [k];
    assert SetAt(Child(defaults, a), [k], v) == Child(defaults, a)[k := v];
  }

  /** From such defaults a write of one entry leads to such defaults again. */
  ghost predicate TakesEntries(reached: Tree -> bool) {
    forall m, a, k, v :: reached(m) ==> reached(WithEntry(m, a, k, v))
  }

  lemma EntryAgain(defaults: Tree, a: string, m: Tree, k: string, v: Json)
    ensures WithEntry(defaults[a := Obj(m)], a, k, v) == defaults[a := Obj(m[k := v])]
  {
    assert Child(defaults[a := Obj(m)], a) == m;
  }

  lemma GapCloses(catalog: Tree, models: Tree, k: string)
    requires k in catalog && k !in models
    ensures catalog + models[k := catalog[k]] == catalog + models
    ensures catalog.Keys - models[k := catalog[k]].Keys == catalog.Keys - models.Keys - {k}
  {
  }

  lemma NoGaps(catalog: Tree, models: Tree)
    requires catalog.Keys - models.Keys == {}
    ensures catalog + models == models && catalog.Keys <= models.Keys
  {
    forall k | k in catalog ensures k in models {
      assert k !in models ==> k in catalog.Keys - models.Keys;
    }
  }

  function With(m: Tree, k: string, v: Json): Tree {
    m[k := v]
  }

  ghost predicate TakesKeys(reached: Tree -> bool) {
    forall m, k, v :: reached(m) ==> reached(With(m, k, v))
  }

  lemma {:induction false} GapsFrom(reached: Tree -> bool, models: Tree, catalog: Tree, rest: set<string>)
    requires reached(models) && TakesKeys(reached) && rest == catalog.Keys - models.Keys
    ensures reached(catalog + models)
    decreases |rest|
  {
    if rest == {} {
      NoGaps(catalog, models);
    } else {
      var k :| k in rest;
      GapCloses(catalog, models, k);
      assert reached(With(models, k, catalog[k]));
      GapsFrom(reached, models[k := catalog[k]], catalog, rest - {k});
    }
  }

  lemma TakesKeysBelow(reached: Tree -> bool, defaults: Tree, a: string)
    requires TakesEntries(reached)
    ensures TakesKeys((m: Tree) => reached(defaults[a := Obj(m)]))
  {
    forall m: Tree, k, v | reached(defaults[a := Obj(m)]) ensures reached(defaults[a := Obj(With(m, k, v))]) {
      EntryAgain(defaults, a, m, k, v);
      assert reached(WithEntry(defaults[a := Obj(m)], a, k, v));
    }
  }

  /** Catalog entries are written one by one where there is none. */
  lemma GapsFilled(reached: Tree -> bool, defaults: Tree, catalog: Tree)
    requires reached(defaults) && TakesEntries(reached) && catalog != map[]
    ensures reached(defaults["models" := Obj(catalog + Child(defaults, "models"))])
  {
    var models := Child(defaults, "models");
    if k :| k in catalog && k !in models {
      GapCloses(catalog, models, k);
      assert reached(WithEntry(defaults, "models", k, catalog[k]));
      TakesKeysBelow(reached, defaults, "models");
      GapsFrom((m: Tree) => reached(defaults["models" := Obj(m)]), models[k := catalog[k]], catalog, catalog.Keys - models.Keys - {k});
    } else {
      assert catalog.Keys - models.Keys == {};
      NoGaps(catalog, models);
      ModelsThere(defaults, catalog);
    }
  }

  lemma ModelsThere(defaults: Tree, catalog: Tree)
    requires catalog != map[] && catalog.Keys <= Child(defaults, "models").Keys
    ensures defaults["models" := Obj(Child(defaults, "models"))] == defaults
  {
    assert catalog.Keys != {} by {
      assert catalog.Keys == {} ==> catalog == map[];
    }
  }

  lemma PrimarySet(reached: Tree -> bool, defaults: Tree, primary: string) returns (model: Tree)
    requires reached(defaults) && TakesEntries(reached)
    ensures var m := Child(defaults, "model");
            model == if "primary" in m && m["primary"].Str? && m["primary"].s != "" then m else m["primary" := Str(primary)]
    ensures reached(defaults["model" := Obj(model)])
  {
    model := Child(defaults, "model");
    if "primary" in model && model["primary"].Str? && model["primary"].s != "" {
      assert defaults["model" := Obj(model)] == defaults;
    } else {
      assert reached(WithEntry(defaults, "model", "primary", Str(primary)));
      model := model["primary" := Str(primary)];
    }
  }

  lemma ModelSet(reached: Tree -> bool, defaults: Tree, inp: Inputs)
    requires reached(defaults) && TakesEntries(reached)
    ensures reached(defaults["model" := Obj(ModelSettings(Child(defaults, "model"), inp))])
  {
    var model := PrimarySet(reached, defaults, inp.primary);
    if "fallbacks" !in model && inp.fallbacks != [] {
      var with := defaults["model" := Obj(model)];
      assert reached(WithEntry(with, "model", "fallbacks", StringArr(inp.fallbacks)));
      var full := Obj(model["fallbacks" := StringArr(inp.fallbacks)]);
      assert with["model" := full] == defaults["model" := full];
    }
  }

  lemma PolicyByEdits(c: Tree, d: Tree, defaults: Tree, policy: Json) returns (after: Tree)
    requires DefaultsByEdits(c, d, defaults)
    ensures after == if "modelPolicy" in defaults && defaults["modelPolicy"].Obj? then defaults else defaults["modelPolicy" := policy]
    ensures DefaultsByEdits(c, d, after)
  {
    after := defaults;
    if !("modelPolicy" in defaults && defaults["modelPolicy"].Obj?) {
      OneMoreBelow(c, d, defaults, ["modelPolicy"], policy);
      after := defaults["modelPolicy" := policy];
    }
  }

  lemma EditsTakeEntries(c: Tree, d: Tree)
    ensures TakesEntries((m: Tree) => DefaultsByEdits(c, d, m))
  {
    forall m: Tree, a, k, v | DefaultsByEdits(c, d, m) ensures DefaultsByEdits(c, d, WithEntry(m, a, k, v)) {
      OneMoreEntry(c, d, m, a, k, v);
    }
  }

  lemma CatalogReached(c: Tree, d: Tree, inp: Inputs, allow: set<string> -> seq<string>)
    requires ByEdits(c, d) && inp.catalog != map[]
    ensures DefaultsByEdits(c, d, CatalogDefaults(Defaults(d), inp, allow))
  {
    var reached, defaults := (m: Tree) => DefaultsByEdits(c, d, m), Defaults(d);
    EditsTakeEntries(c, d);
    GapsFilled(reached, defaults, inp.catalog);
    var models := inp.catalog + Child(defaults, "models");
    var ruled := PolicyByEdits(c, d, defaults["models" := Obj(models)], Obj(map["allow" := StringArr(allow(models.Keys))]));
    ModelSet(reached, ruled, inp);
  }

  /** The catalog step edits the defaults that are there, entry by entry. */
  lemma CatalogByEdits(c: Tree, d: Tree, inp: Inputs, allow: set<string> -> seq<string>)
    requires ByEdits(c, d)
    ensures ByEdits(c, InjectModelCatalog(d, inp, allow))
  {
    if inp.catalog != map[] {
      var r := CatalogDefaults(Defaults(d), inp, allow);
      CatalogReached(c, d, inp, allow);
      if r == Defaults(d) {
        assert "models" in r;
        DefaultsThere(d);
      }
    }
  }
}
