/** Environment variables of the gateway container: collecting, deduplicating and merging them. */
module EnvMerge {
  import opened Basics
  import opened Strings
  import opened StableSort

  /** An entry of the env list: not a map, or a map with its name, its secret reference and the rest. */
  datatype EnvVar = Foreign(raw: string) | Var(name: string, secret: string, key: string, rest: string)
  datatype Want = Want(name: string, secret: string, key: string, role: string)

  predicate Named(v: EnvVar, name: string) {
    v.Var? && v.name == name
  }

  predicate Carries(v: EnvVar, w: Want) {
    Named(v, w.name) && v.secret == w.secret && v.key == w.key
  }

  function NewVar(w: Want): EnvVar {
    Var(w.name, w.secret, w.key, "")
  }

  /** Index of the first entry with a name, or the length. */
  function First(env: seq<EnvVar>, name: string): (i: nat)
    ensures i <= |env|
    ensures i < |env| ==> Named(env[i], name)
    ensures forall j | 0 <= j < i :: !Named(env[j], name)
  {
    if env == [] then 0 else if Named(env[0], name) then 0 else 1 + First(env[1..], name)
  }

  /******* Merging into the env list *******/

  function MergeOne(env: seq<EnvVar>, w: Want): seq<EnvVar> {
    var i := First(env, w.name);
    if i == |env| then env + [NewVar(w)]
    else if Carries(env[i], w) then env
    else env[i := NewVar(w)]
  }

  function Merge(env: seq<EnvVar>, ws: seq<Want>): seq<EnvVar> {
    if ws == [] then env else MergeOne(Merge(env, ws[..|ws| - 1]), ws[|ws| - 1])
  }

  /** `mergeEnvFromIntoSlice`. */
  method MergeEnvFromIntoSlice(existing: seq<EnvVar>, desired: seq<Want>) returns (env: seq<EnvVar>)
    ensures env == Merge(existing, desired)
  {
    env := existing;
    for d := 0 to |desired|
      invariant env == Merge(existing, desired[..d])
    {
      var w := desired[d];
      ghost var was := env;
      var replaced := false;
      var i := 0;
      while i < |env| && !replaced
        invariant 0 <= i <= |env|
        invariant if replaced then env == MergeOne(was, w) && First(was, w.name) < |was|
                  else env == was && forall j | 0 <= j < i :: !Named(was[j], w.name)
      {
        if env[i].Var? && env[i].name == w.name {
          assert First(was, w.name) == i;
          if !(env[i].secret == w.secret && env[i].key == w.key) {
            env := env[i := NewVar(w)];
          }
          replaced := true;
        }
        i := i + 1;
      }
      if !replaced {
        env := env + [NewVar(w)];
      }
      assert desired[..d + 1][..d] == desired[..d];
    }
    assert desired[..|desired|] == desired;
  }

  /** Entries stay where they are; only the first entry of the wanted name can change. */
  lemma MergeOneFacts(env: seq<EnvVar>, w: Want)
    ensures var r, i := MergeOne(env, w), First(env, w.name);
            && |env| <= |r| <= |env| + 1
            && (forall j | 0 <= j < |env| && j != i :: r[j] == env[j])
            && i < |r| && First(r, w.name) == i && Carries(r[i], w)
            && (|r| > |env| ==> i == |env|)
  {
    var r, i := MergeOne(env, w), First(env, w.name);
    assert forall j | 0 <= j < i :: r[j] == env[j];
    assert Named(r[i], w.name) && forall j | 0 <= j < i :: !Named(r[j], w.name);
  }

  lemma MergeOneElsewhere(env: seq<EnvVar>, w: Want, name: string)
    requires name != w.name && First(env, name) < |env|
    ensures First(MergeOne(env, w), name) == First(env, name)
    ensures MergeOne(env, w)[First(env, name)] == env[First(env, name)]
  {
    MergeOneFacts(env, w);
    var r, i := MergeOne(env, w), First(env, name);
    assert r[i] == env[i];
    assert forall j | 0 <= j < i :: !Named(r[j], name);
  }

  predicate LastOfItsName(ws: seq<Want>, k: nat) {
    k < |ws| && forall l | k < l < |ws| :: ws[l].name != ws[k].name
  }

  /** The first entry of every wanted name carries the last reference wanted for it. */
  lemma {:induction false} MergeCarries(env: seq<EnvVar>, ws: seq<Want>, k: nat)
    requires LastOfItsName(ws, k)
    ensures var r := Merge(env, ws); var i := First(r, ws[k].name); i < |r| && Carries(r[i], ws[k])
    decreases |ws|
  {
    var init, w := ws[..|ws| - 1], ws[|ws| - 1];
    MergeOneFacts(Merge(env, init), w);
    if k < |ws| - 1 {
      assert forall l | k < l < |init| :: init[l] == ws[l];
      MergeCarries(env, init, k);
      assert ws[|ws| - 1].name != ws[k].name;
      MergeOneElsewhere(Merge(env, init), w, ws[k].name);
    }
  }

  predicate Wanted(ws: seq<Want>, name: string) {
    exists k :: 0 <= k < |ws| && ws[k].name == name
  }

  /**
   Merging leaves every entry of another name, and everything that is not a map, at its
   place; entries that are added have a wanted name.
   */
  lemma {:induction false} OthersUntouched(env: seq<EnvVar>, ws: seq<Want>)
    ensures var r := Merge(env, ws);
            && |env| <= |r|
            && (forall j | 0 <= j < |env| && !(env[j].Var? && Wanted(ws, env[j].name)) :: r[j] == env[j])
            && (forall j | 0 <= j < |env| && env[j].Var? :: Named(r[j], env[j].name))
            && (forall j | |env| <= j < |r| :: r[j].Var? && Wanted(ws, r[j].name))
    decreases |ws|
  {
    if ws != [] {
      var init, w := ws[..|ws| - 1], ws[|ws| - 1];
      var m, r := Merge(env, init), Merge(env, ws);
      OthersUntouched(env, init);
      MergeOneFacts(m, w);
      assert Wanted(ws, w.name) by {
        assert ws[|ws| - 1].name == w.name;
      }
      forall name | Wanted(init, name) ensures Wanted(ws, name) {
        var k :| 0 <= k < |init| && init[k].name == name;
        assert ws[k].name == name;
      }
      assert forall j | 0 <= j < |m| && j == First(m, w.name) :: Named(m[j], w.name) && Named(r[j], w.name);
    }
  }

  ghost predicate NamesDistinct(env: seq<EnvVar>) {
    forall i, j | 0 <= i < j < |env| && env[i].Var? && env[j].Var? :: env[i].name != env[j].name
  }

  lemma {:induction false} MergeKeepsDistinct(env: seq<EnvVar>, ws: seq<Want>)
    requires NamesDistinct(env)
    ensures NamesDistinct(Merge(env, ws))
    decreases |ws|
  {
    if ws != [] {
      var m, w := Merge(env, ws[..|ws| - 1]), ws[|ws| - 1];
      MergeKeepsDistinct(env, ws[..|ws| - 1]);
      var r, i := MergeOne(m, w), First(m, w.name);
      MergeOneFacts(m, w);
      forall a, b | 0 <= a < b < |r| && r[a].Var? && r[b].Var? ensures r[a].name != r[b].name {
        if a != i && b != i {
          assert r[a] == m[a] && r[b] == m[b];
        } else if i < |m| {
          assert Named(m[i], w.name) && Named(r[i], w.name);
        }
      }
    }
  }

  ghost predicate WantsDistinct(ws: seq<Want>) {
    forall i, j | 0 <= i < j < |ws| :: ws[i].name != ws[j].name
  }

  /** What merging makes of the first entry of a name. */
  function Folded(e: EnvVar, ws: seq<Want>, name: string): EnvVar {
    if ws == [] then e
    else
      var f, w := Folded(e, ws[..|ws| - 1], name), ws[|ws| - 1];
      if w.name != name || Carries(f, w) then f else NewVar(w)
  }

  /** Merging into a list that has the name changes its first entry as `Folded` says and moves nothing. */
  lemma {:induction false} MergeIsFold(env: seq<EnvVar>, ws: seq<Want>, name: string)
    requires First(env, name) < |env|
    ensures var r, i := Merge(env, ws), First(env, name);
            First(r, name) == i && i < |r| && r[i] == Folded(env[i], ws, name)
    decreases |ws|
  {
    if ws != [] {
      var init, w := ws[..|ws| - 1], ws[|ws| - 1];
      MergeIsFold(env, init, name);
      if w.name == name {
        MergeOneFacts(Merge(env, init), w);
      } else {
        MergeOneElsewhere(Merge(env, init), w, name);
      }
    }
  }

  /** All that is wanted for a name is one reference. */
  ghost predicate OneReference(ws: seq<Want>, name: string) {
    forall i, j | 0 <= i < |ws| && 0 <= j < |ws| && ws[i].name == name && ws[j].name == name ::
      ws[i].secret == ws[j].secret && ws[i].key == ws[j].key
  }

  lemma {:induction false} FoldCarriesLast(e: EnvVar, ws: seq<Want>, name: string, k: nat)
    requires LastOfItsName(ws, k) && ws[k].name == name
    ensures Carries(Folded(e, ws, name), ws[k])
    decreases |ws|
  {
    if k < |ws| - 1 {
      var init := ws[..|ws| - 1];
      assert forall l | k < l < |init| :: init[l] == ws[l];
      assert ws[|ws| - 1].name != name;
      FoldCarriesLast(e, init, name, k);
    }
  }

  lemma {:induction false} LastWanted(ws: seq<Want>, name: string) returns (k: nat)
    requires Wanted(ws, name)
    ensures LastOfItsName(ws, k) && ws[k].name == name
    decreases |ws|
  {
    var n := |ws| - 1;
    if ws[n].name == name {
      k := n;
    } else {
      var i :| 0 <= i < |ws| && ws[i].name == name;
      assert ws[..n][i].name == name;
      k := LastWanted(ws[..n], name);
      assert forall l | k < l < |ws| :: l == n || ws[l] == ws[..n][l];
    }
  }

  /** With several references wanted, the entry ends the same whatever it was. */
  lemma {:induction false} FoldForgets(e: EnvVar, e': EnvVar, ws: seq<Want>, name: string)
    ensures OneReference(ws, name) || Folded(e, ws, name) == Folded(e', ws, name)
    decreases |ws|
  {
    if ws != [] {
      var init, w := ws[..|ws| - 1], ws[|ws| - 1];
      FoldForgets(e, e', init, name);
      if w.name == name && OneReference(init, name) && Wanted(init, name) {
        var k := LastWanted(init, name);
        FoldCarriesLast(e, init, name, k);
        FoldCarriesLast(e', init, name, k);
        if w.secret == init[k].secret && w.key == init[k].key {
          assert OneReference(ws, name) by {
            assert forall i | 0 <= i < |init| :: ws[i] == init[i];
          }
        }
      } else if OneReference(init, name) {
        assert w.name != name || !Wanted(init, name);
        assert forall i | 0 <= i < |init| && ws[i].name == name :: init[i].name == name && Wanted(init, name);
        assert forall i | 0 <= i < |init| :: ws[i] == init[i];
      }
    }
  }

  lemma {:induction false} FoldKeepsCarrier(e: EnvVar, ws: seq<Want>, name: string)
    requires forall i | 0 <= i < |ws| && ws[i].name == name :: Carries(e, ws[i])
    ensures Folded(e, ws, name) == e
    decreases |ws|
  {
    if ws != [] {
      FoldKeepsCarrier(e, ws[..|ws| - 1], name);
    }
  }

  lemma FoldTwice(e: EnvVar, ws: seq<Want>, name: string)
    ensures Folded(Folded(e, ws, name), ws, name) == Folded(e, ws, name)
  {
    var f := Folded(e, ws, name);
    if OneReference(ws, name) && Wanted(ws, name) {
      var k := LastWanted(ws, name);
      FoldCarriesLast(e, ws, name, k);
      FoldKeepsCarrier(f, ws, name);
    } else if OneReference(ws, name) {
      assert forall i | 0 <= i < |ws| && ws[i].name == name :: Wanted(ws, name);
      FoldKeepsCarrier(f, ws, name);
    } else {
      FoldForgets(f, e, ws, name);
    }
  }

  /** What merging makes of a name that is not in the list: the entry added for it, then folded. */
  lemma {:induction false} MergedEntryIsStable(env: seq<EnvVar>, ws: seq<Want>, name: string)
    requires Wanted(ws, name)
    ensures var r, i := Merge(env, ws), First(Merge(env, ws), name);
            i < |r| && Folded(r[i], ws, name) == r[i]
  {
    var k := LastWanted(ws, name);
    MergeCarries(env, ws, k);
    if First(env, name) < |env| {
      MergeIsFold(env, ws, name);
      FoldTwice(env[First(env, name)], ws, name);
    } else {
      var e := AddedEntry(env, ws, name);
      FoldTwice(e, ws, name);
    }
  }

  lemma {:induction false} AddedEntry(env: seq<EnvVar>, ws: seq<Want>, name: string) returns (e: EnvVar)
    requires Wanted(ws, name) && First(env, name) == |env|
    ensures var r, i := Merge(env, ws), First(Merge(env, ws), name);
            i < |r| && r[i] == Folded(e, ws, name)
    decreases |ws|
  {
    var init, w := ws[..|ws| - 1], ws[|ws| - 1];
    if Wanted(init, name) {
      e := AddedEntry(env, init, name);
      NextFold(Merge(env, init), e, ws, name);
    } else {
      e := NewVar(w);
      NewlyWanted(ws, name);
      NotWantedNotThere(env, init, name);
      FoldSkips(e, init, name);
      MergeOneFacts(Merge(env, init), w);
    }
  }

  lemma NewlyWanted(ws: seq<Want>, name: string)
    requires ws != [] && Wanted(ws, name)
    ensures Wanted(ws[..|ws| - 1], name) || ws[|ws| - 1].name == name
  {
    var k :| 0 <= k < |ws| && ws[k].name == name;
    if k < |ws| - 1 {
      assert ws[..|ws| - 1][k].name == name;
    }
  }

  lemma NextFold(m: seq<EnvVar>, e: EnvVar, ws: seq<Want>, name: string)
    requires ws != [] && First(m, name) < |m| && m[First(m, name)] == Folded(e, ws[..|ws| - 1], name)
    ensures var r := MergeOne(m, ws[|ws| - 1]); First(r, name) < |r| && r[First(r, name)] == Folded(e, ws, name)
  {
    var w := ws[|ws| - 1];
    if w.name == name {
      MergeOneFacts(m, w);
    } else {
      MergeOneElsewhere(m, w, name);
    }
  }

  lemma {:induction false} FoldSkips(e: EnvVar, ws: seq<Want>, name: string)
    requires !Wanted(ws, name)
    ensures Folded(e, ws, name) == e
  {
    assert forall i | 0 <= i < |ws| && ws[i].name == name :: Wanted(ws, name);
    FoldKeepsCarrier(e, ws, name);
  }

  lemma NotWantedNotThere(env: seq<EnvVar>, ws: seq<Want>, name: string)
    requires !Wanted(ws, name) && First(env, name) == |env|
    ensures First(Merge(env, ws), name) == |Merge(env, ws)|
  {
    OthersUntouched(env, ws);
    var r := Merge(env, ws);
    forall j | 0 <= j < |r| ensures !Named(r[j], name) {
      assert j < |env| ==> !Named(env[j], name);
    }
  }

  /** Merging the same entries a second time changes nothing, whatever they are. */
  lemma MergeIdempotent(env: seq<EnvVar>, ws: seq<Want>)
    ensures Merge(Merge(env, ws), ws) == Merge(env, ws)
  {
    var r := Merge(env, ws);
    var rr := Merge(r, ws);
    OthersUntouched(r, ws);
    NothingAdded(env, ws, ws);
    forall j | 0 <= j < |r| ensures rr[j] == r[j] {
      if r[j].Var? && Wanted(ws, r[j].name) {
        var name := r[j].name;
        if j == First(r, name) {
          MergedEntryIsStable(env, ws, name);
          MergeIsFold(r, ws, name);
        } else {
          OnlyFirstsChange(r, ws, j);
        }
      }
    }
  }

  /** Once every wanted name is in the list, merging adds nothing. */
  lemma {:induction false} NothingAdded(env: seq<EnvVar>, all: seq<Want>, ws: seq<Want>)
    requires ws <= all
    ensures |Merge(Merge(env, all), ws)| == |Merge(env, all)|
    decreases |ws|
  {
    if ws != [] {
      var r, init, w := Merge(env, all), ws[..|ws| - 1], ws[|ws| - 1];
      NothingAdded(env, all, init);
      assert all[|ws| - 1] == w;
      var k := LastWanted(all, w.name);
      MergeCarries(env, all, k);
      MergeIsFold(r, init, w.name);
      MergeOneFacts(Merge(r, init), w);
    }
  }

  lemma {:induction false} OnlyFirstsChange(env: seq<EnvVar>, ws: seq<Want>, j: nat)
    requires j < |env| && env[j].Var? && First(env, env[j].name) != j
    ensures j < |Merge(env, ws)| && Merge(env, ws)[j] == env[j]
    decreases |ws|
  {
    if ws != [] {
      var init, w := ws[..|ws| - 1], ws[|ws| - 1];
      OnlyFirstsChange(env, init, j);
      MergeOneFacts(Merge(env, init), w);
      if w.name == env[j].name {
        MergeIsFold(env, init, w.name);
      }
    }
  }

  /******* Channels *******/

  predicate Conflicts(env: seq<EnvVar>, w: Want) {
    var i := First(env, w.name);
    i < |env| && !Carries(env[i], w)
  }

  lemma {:induction false} WithoutConflictOnlyAppends(env: seq<EnvVar>, ws: seq<Want>)
    requires forall k | 0 <= k < |ws| :: !Conflicts(env, ws[k])
    ensures env <= Merge(env, ws)
    decreases |ws|
  {
    if ws != [] {
      var m, w := Merge(env, ws[..|ws| - 1]), ws[|ws| - 1];
      WithoutConflictOnlyAppends(env, ws[..|ws| - 1]);
      MergeOneFacts(m, w);
      assert !Conflicts(env, w);
      assert forall j | 0 <= j < |env| :: m[j] == env[j];
      var i := First(m, w.name);
      if i < |env| {
        assert First(env, w.name) == i;
      }
      assert forall j | 0 <= j < |env| :: MergeOne(m, w)[j] == env[j];
    }
  }

  /**
   `mergeChannelEnvFromIntoSlice`: fails exactly when the first entry of a wanted name
   refers to something else; otherwise the list is only appended to.
   */
  method MergeChannelEnvFromIntoSlice(existing: seq<EnvVar>, desired: seq<Want>) returns (env: Option<seq<EnvVar>>)
    ensures env.None? <==> exists k :: 0 <= k < |desired| && Conflicts(existing, desired[k])
    ensures env.Some? ==> existing <= env.value && env.value == Merge(existing, desired)
  {
    for d := 0 to |desired|
      invariant forall k | 0 <= k < d :: !Conflicts(existing, desired[k])
    {
      var w := desired[d];
      var i := 0;
      while i < |existing| && !Named(existing[i], w.name)
        invariant 0 <= i <= |existing|
        invariant forall j | 0 <= j < i :: !Named(existing[j], w.name)
      {
        i := i + 1;
      }
      assert First(existing, w.name) == i;
      if i < |existing| && !(existing[i].secret == w.secret && existing[i].key == w.key) {
        assert Conflicts(existing, desired[d]);
        return None;
      }
    }
    WithoutConflictOnlyAppends(existing, desired);
    var merged := MergeEnvFromIntoSlice(existing, desired);
    return Some(merged);
  }

  /******* Deduplicating what the MCP servers want *******/

  datatype Source = Source(server: string, want: Want)

  /** The columns `slices.SortFunc` compares. */
  function SortKey(s: Source): seq<string> {
    [s.server, s.want.name, s.want.secret, s.want.key]
  }

  predicate Before(a: seq<string>, b: seq<string>)
    requires |a| == |b|
  {
    a != [] && (Less(a[0], b[0]) || (a[0] == b[0] && Before(a[1..], b[1..])))
  }

  predicate SortsBefore(s: Source, t: Source) {
    Before(SortKey(s), SortKey(t))
  }

  lemma {:induction false} BeforeTotal(a: seq<string>, b: seq<string>)
    requires |a| == |b|
    ensures !(Before(a, b) && Before(b, a))
    ensures !Before(a, b) && !Before(b, a) <==> a == b
    decreases |a|
  {
    if a != [] {
      LessTotal(a[0], b[0]);
      BeforeTotal(a[1..], b[1..]);
      assert a == [a[0]] + a[1..] && b == [b[0]] + b[1..];
    }
  }

  lemma {:induction false} BeforeTransitive(a: seq<string>, b: seq<string>, c: seq<string>)
    requires |a| == |b| == |c| && Before(a, b) && Before(b, c)
    ensures Before(a, c)
    decreases |a|
  {
    if Less(a[0], b[0]) && Less(b[0], c[0]) {
      LessTransitive(a[0], b[0], c[0]);
    } else if a[0] == b[0] && b[0] == c[0] && !Less(a[0], b[0]) && !Less(b[0], c[0]) {
      BeforeTransitive(a[1..], b[1..], c[1..]);
    } else {
      LessTotal(a[0], b[0]);
      LessTotal(b[0], c[0]);
    }
  }

  lemma SortOrderIsStrictWeak()
    ensures StrictWeak(SortsBefore)
  {
    forall x ensures !SortsBefore(x, x) {
      BeforeTotal(SortKey(x), SortKey(x));
    }
    forall x, y, z | SortsBefore(x, y) && SortsBefore(y, z) ensures SortsBefore(x, z) {
      BeforeTransitive(SortKey(x), SortKey(y), SortKey(z));
    }
    forall x, y, z | SortsBefore(x, z) ensures SortsBefore(x, y) || SortsBefore(y, z) {
      BeforeTotal(SortKey(x), SortKey(y));
      if SortsBefore(y, x) {
        BeforeTransitive(SortKey(y), SortKey(x), SortKey(z));
      }
    }
  }

  function FirstWant(ws: seq<Want>, name: string): (i: nat)
    ensures i <= |ws|
    ensures i < |ws| ==> ws[i].name == name
    ensures forall j | 0 <= j < i :: ws[j].name != name
  {
    if ws == [] then 0 else if ws[0].name == name then 0 else 1 + FirstWant(ws[1..], name)
  }

  function Keep(ws: seq<Want>, w: Want): seq<Want> {
    var i := FirstWant(ws, w.name);
    if i < |ws| then ws[i := w] else ws + [w]
  }

  function Deduplicated(all: seq<Source>): seq<Want> {
    if all == [] then [] else Keep(Deduplicated(all[..|all| - 1]), all[|all| - 1].want)
  }

  /** The loop after the sort, with its index of names already seen. */
  method Deduplicate(all: seq<Source>) returns (ws: seq<Want>)
    ensures ws == Deduplicated(all)
  {
    var seen: map<string, nat> := map[];
    ws := [];
    for i := 0 to |all|
      invariant ws == Deduplicated(all[..i])
      invariant forall name :: if name in seen then seen[name] == FirstWant(ws, name) < |ws| else FirstWant(ws, name) == |ws|
    {
      var w := all[i].want;
      assert all[..i + 1][..i] == all[..i];
      ghost var was := ws;
      if w.name in seen {
        ws := ws[seen[w.name] := w];
      } else {
        seen := seen[w.name := |ws|];
        ws := ws + [w];
      }
      forall name ensures if name in seen then seen[name] == FirstWant(ws, name) < |ws| else FirstWant(ws, name) == |ws| {
        KeepFirst(was, w, name);
      }
    }
    assert all[..|all|] == all;
  }

  lemma KeepFirst(ws: seq<Want>, w: Want, name: string)
    ensures var r := Keep(ws, w);
            FirstWant(r, name) == if FirstWant(ws, name) < |ws| then FirstWant(ws, name)
                                  else if name == w.name then |ws| else |r|
  {
    var r, i := Keep(ws, w), FirstWant(ws, name);
    assert forall j | 0 <= j < |ws| :: r[j].name == ws[j].name;
    if i < |ws| {
      assert r[i].name == name && forall j | 0 <= j < i :: r[j].name != name;
    } else if name == w.name {
      assert r[|ws|].name == name && forall j | 0 <= j < |ws| :: r[j].name != name;
    } else {
      assert forall j | 0 <= j < |r| :: r[j].name != name;
    }
  }

  /** The entry is the last in the list with its name. */
  ghost predicate LastSource(all: seq<Source>, k: int) {
    0 <= k < |all| && forall l | k < l < |all| :: all[l].want.name != all[k].want.name
  }

  /** One entry per name, and it is the last one. */
  lemma {:induction false} OneEntryPerName(all: seq<Source>)
    ensures var ws := Deduplicated(all);
            && WantsDistinct(ws)
            && (forall i | 0 <= i < |ws| :: IsLast(all, ws[i]))
            && (forall k | 0 <= k < |all| :: FirstWant(ws, all[k].want.name) < |ws|)
    decreases |all|
  {
    NamesKept(all);
    if all != [] {
      var init, s := all[..|all| - 1], all[|all| - 1];
      OneEntryPerName(init);
      var was, ws := Deduplicated(init), Deduplicated(all);
      KeepFacts(was, s.want);
      forall i | 0 <= i < |ws| ensures IsLast(all, ws[i]) {
        KeptIsLast(all, was, ws[i], i);
      }
    }
  }

  lemma {:induction false} NamesKept(all: seq<Source>)
    ensures forall k | 0 <= k < |all| :: FirstWant(Deduplicated(all), all[k].want.name) < |Deduplicated(all)|
    decreases |all|
  {
    if all != [] {
      var init, s := all[..|all| - 1], all[|all| - 1];
      NamesKept(init);
      forall k | 0 <= k < |all| ensures FirstWant(Deduplicated(all), all[k].want.name) < |Deduplicated(all)| {
        KeepFirst(Deduplicated(init), s.want, all[k].want.name);
        assert k < |init| ==> init[k] == all[k];
      }
    }
  }

  ghost predicate IsLast(all: seq<Source>, w: Want) {
    exists k :: LastSource(all, k) && w == all[k].want
  }

  lemma KeptIsLast(all: seq<Source>, was: seq<Want>, w: Want, i: nat)
    requires all != [] && forall j | 0 <= j < |was| :: IsLast(all[..|all| - 1], was[j])
    requires if w.name == all[|all| - 1].want.name then w == all[|all| - 1].want else i < |was| && w == was[i]
    ensures IsLast(all, w)
  {
    if w.name == all[|all| - 1].want.name {
      NewestIsLast(all);
    } else {
      StillLast(all, w);
    }
  }

  lemma NewestIsLast(all: seq<Source>)
    requires all != []
    ensures IsLast(all, all[|all| - 1].want)
  {
    assert LastSource(all, |all| - 1);
  }

  lemma StillLast(all: seq<Source>, w: Want)
    requires all != [] && IsLast(all[..|all| - 1], w) && w.name != all[|all| - 1].want.name
    ensures IsLast(all, w)
  {
    var init := all[..|all| - 1];
    var k :| LastSource(init, k) && w == init[k].want;
    assert LastSource(all, k);
  }

  lemma KeepFacts(ws: seq<Want>, w: Want)
    requires WantsDistinct(ws)
    ensures var r := Keep(ws, w);
            && WantsDistinct(r)
            && forall i | 0 <= i < |r| :: if r[i].name == w.name then r[i] == w else i < |ws| && r[i] == ws[i]
  {
    var r, i := Keep(ws, w), FirstWant(ws, w.name);
    assert forall j | 0 <= j < |ws| :: r[j].name == ws[j].name;
    assert forall j | 0 <= j < |r| && j != i :: j < |ws| && r[j] == ws[j];
  }

  /** After sorting, the entry kept for a name comes from the greatest server, then secret, then key. */
  lemma GreatestWins(all: seq<Source>, i: nat) returns (k: nat)
    requires Sorted(SortsBefore, all) && i < |Deduplicated(all)|
    ensures k < |all| && Deduplicated(all)[i] == all[k].want
    ensures forall l | 0 <= l < |all| && all[l].want.name == all[k].want.name :: !SortsBefore(all[k], all[l])
  {
    OneEntryPerName(all);
    assert IsLast(all, Deduplicated(all)[i]);
    k :| LastSource(all, k) && Deduplicated(all)[i] == all[k].want;
    LastIsGreatest(SortsBefore, all, k);
  }

  /** Column by column: the greatest server, among its entries the greatest secret, and for that the greatest key. */
  lemma GreatestServerWins(all: seq<Source>, i: nat) returns (k: nat)
    requires Sorted(SortsBefore, all) && i < |Deduplicated(all)|
    ensures k < |all| && Deduplicated(all)[i] == all[k].want
    ensures forall l | 0 <= l < |all| && all[l].want.name == all[k].want.name ::
              var mine, other := all[k], all[l];
              && !Less(mine.server, other.server)
              && (mine.server == other.server ==> !Less(mine.want.secret, other.want.secret))
              && (mine.server == other.server && mine.want.secret == other.want.secret ==> !Less(mine.want.key, other.want.key))
  {
    k := GreatestWins(all, i);
    forall l | 0 <= l < |all| && all[l].want.name == all[k].want.name ensures !Columns(all[k], all[l]) {
      ColumnsDecide(all[k], all[l]);
    }
  }

  /** The other entry comes later by server, secret or key. */
  predicate Columns(mine: Source, other: Source) {
    || Less(mine.server, other.server)
    || (mine.server == other.server && Less(mine.want.secret, other.want.secret))
    || (mine.server == other.server && mine.want.secret == other.want.secret && Less(mine.want.key, other.want.key))
  }

  lemma ColumnsDecide(s: Source, t: Source)
    requires s.want.name == t.want.name
    ensures SortsBefore(s, t) <==> Columns(s, t)
  {
    var a, b := [s.want.secret, s.want.key], [t.want.secret, t.want.key];
    LessTotal(s.want.name, t.want.name);
    assert SortKey(s)[1..] == [s.want.name] + a && SortKey(t)[1..] == [t.want.name] + b;
    assert ([s.want.name] + a)[1..] == a && ([t.want.name] + b)[1..] == b;
    assert a[1..] == [s.want.key] && b[1..] == [t.want.key];
    assert Before([s.want.key], [t.want.key]) <==> Less(s.want.key, t.want.key);
    assert Before([s.want.name] + a, [t.want.name] + b) <==> Before(a, b);
  }

  lemma LastIsGreatest(less: (Source, Source) -> bool, all: seq<Source>, k: nat)
    requires less == SortsBefore && Sorted(less, all) && LastSource(all, k)
    ensures forall l | 0 <= l < |all| && all[l].want.name == all[k].want.name :: !less(all[k], all[l])
  {
    BeforeTotal(SortKey(all[k]), SortKey(all[k]));
    assert !less(all[k], all[k]);
  }

  /******* Independence of the map order *******/

  function Roleless(w: Want): Want {
    w.(role := "")
  }

  function Erased(s: Source): Source {
    s.(want := Roleless(s.want))
  }

  function EraseAll(all: seq<Source>): (r: seq<Source>)
    ensures |r| == |all| && forall i | 0 <= i < |all| :: r[i] == Erased(all[i])
  {
    seq(|all|, i requires 0 <= i < |all| => Erased(all[i]))
  }

  function RolelessAll(ws: seq<Want>): (r: seq<Want>)
    ensures |r| == |ws| && forall i | 0 <= i < |ws| :: r[i] == Roleless(ws[i])
  {
    seq(|ws|, i requires 0 <= i < |ws| => Roleless(ws[i]))
  }

  lemma {:induction false} DeduplicateErased(all: seq<Source>)
    ensures Deduplicated(EraseAll(all)) == RolelessAll(Deduplicated(all))
    decreases |all|
  {
    if all != [] {
      var init, w := all[..|all| - 1], all[|all| - 1].want;
      DeduplicateErased(init);
      assert EraseAll(all)[..|all| - 1] == EraseAll(init);
      var ws := Deduplicated(init);
      assert forall j | 0 <= j < |ws| :: RolelessAll(ws)[j].name == ws[j].name;
      assert FirstWant(RolelessAll(ws), w.name) == FirstWant(ws, w.name);
      assert Keep(RolelessAll(ws), Roleless(w)) == RolelessAll(Keep(ws, w));
    } else {
      assert EraseAll(all) == [];
    }
  }

  /** How many entries equal x once their roles are dropped. */
  function Count(all: seq<Source>, x: Source): nat {
    if all == [] then 0 else (if Erased(all[0]) == x then 1 else 0) + Count(all[1..], x)
  }

  lemma {:induction false} CountConcat(s: seq<Source>, t: seq<Source>, x: Source)
    ensures Count(s + t, x) == Count(s, x) + Count(t, x)
    decreases |s|
  {
    if s == [] {
      assert s + t == t;
    } else {
      CountConcat(s[1..], t, x);
      assert (s + t)[1..] == s[1..] + t;
    }
  }

  lemma CountWithout(t: seq<Source>, i: nat, x: Source)
    requires i < |t|
    ensures Count(t, x) == Count(t[..i] + t[i + 1..], x) + if Erased(t[i]) == x then 1 else 0
  {
    assert t == t[..i] + t[i..] && t[i..][1..] == t[i + 1..];
    CountConcat(t[..i], t[i..], x);
    CountConcat(t[..i], t[i + 1..], x);
  }

  lemma {:induction false} CountIgnoresOrder(s: seq<Source>, t: seq<Source>, x: Source)
    requires multiset(s) == multiset(t)
    ensures Count(s, x) == Count(t, x)
    decreases |s|
  {
    assert |s| == |multiset(s)| == |multiset(t)| == |t|;
    if s != [] {
      var i := Position(s[0], s, t);
      RemoveOne(s, t, i);
      CountIgnoresOrder(s[1..], t[..i] + t[i + 1..], x);
      CountWithout(t, i, x);
    }
  }

  lemma TiedIsEqual(e: Source, x: Source)
    ensures Tied(SortsBefore, Erased(e), x) <==> Erased(e) == Erased(x)
  {
    BeforeTotal(SortKey(Erased(e)), SortKey(x));
  }

  /** Without roles, entries that tie are equal. */
  lemma {:induction false} ErasedTies(all: seq<Source>, x: Source)
    ensures Ties(SortsBefore, EraseAll(all), x) == seq(Count(all, Erased(x)), _ => Erased(x))
    decreases |all|
  {
    if all != [] {
      ErasedTies(all[1..], x);
      assert EraseAll(all)[1..] == EraseAll(all[1..]);
      TiedIsEqual(all[0], x);
    }
  }

  /**
   Whatever the order in which the server map is walked, and however an unstable sort
   places entries that tie, the deduplicated list is the same up to the role.
   */
  lemma DeduplicationIgnoresOrder(s: seq<Source>, t: seq<Source>)
    requires multiset(s) == multiset(t) && Sorted(SortsBefore, s) && Sorted(SortsBefore, t)
    ensures RolelessAll(Deduplicated(s)) == RolelessAll(Deduplicated(t))
  {
    forall x ensures Ties(SortsBefore, EraseAll(s), x) == Ties(SortsBefore, EraseAll(t), x) {
      ErasedTies(s, x);
      ErasedTies(t, x);
      CountIgnoresOrder(s, t, Erased(x));
    }
    SortOrderIsStrictWeak();
    ErasedSorted(s);
    ErasedSorted(t);
    SortedUnique(SortsBefore, EraseAll(s), EraseAll(t));
    DeduplicateErased(s);
    DeduplicateErased(t);
  }

  lemma ErasedSorted(s: seq<Source>)
    requires Sorted(SortsBefore, s)
    ensures Sorted(SortsBefore, EraseAll(s))
  {
    var e := EraseAll(s);
    forall i, j | 0 <= i < j < |e| ensures !SortsBefore(e[j], e[i]) {
      assert SortKey(e[j]) == SortKey(s[j]) && SortKey(e[i]) == SortKey(s[i]);
    }
  }
}
