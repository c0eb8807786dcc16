/** JSON trees as the operator handles them: nested string-keyed maps with scalar and list leaves. */
module JsonTree {
  import opened Basics

  datatype Json =
    | Null
    | Bool(b: bool)
    | Num(n: real)
    | Str(s: string)
    | Arr(items: seq<Json>)
    | Obj(fields: map<string, Json>)

  type Tree = map<string, Json>

  /******* Reading and writing nested keys *******/

  /** `ensureNestedMap`: the map at a key, or an empty one where there is none. */
  function Child(m: Tree, key: string): Tree {
    if key in m && m[key].Obj? then m[key].fields else map[]
  }

  /** `setNestedValue`: creates the maps on the way, replacing whatever is not a map. */
  function SetAt(m: Tree, path: seq<string>, v: Json): Tree
    requires path != []
    decreases |path|
  {
    if |path| == 1 then m[path[0] := v]
    else m[path[0] := Obj(SetAt(Child(m, path[0]), path[1..], v))]
  }

  function GetAt(m: Tree, path: seq<string>): Option<Json>
    requires path != []
    decreases |path|
  {
    if path[0] !in m then None
    else if |path| == 1 then Some(m[path[0]])
    else GetAt(Child(m, path[0]), path[1..])
  }

  /** `setDefault`, with the maps above the key created as `ensureNestedMap` does. */
  function SetDefaultAt(m: Tree, path: seq<string>, v: Json): Tree
    requires path != []
    decreases |path|
  {
    if |path| == 1 then (if path[0] in m then m else m[path[0] := v])
    else m[path[0] := Obj(SetDefaultAt(Child(m, path[0]), path[1..], v))]
  }

  /** Deletes a key of the map at `path`, if there is such a map. */
  function DeleteAt(m: Tree, path: seq<string>): Tree
    requires path != []
    decreases |path|
  {
    if |path| == 1 then m - {path[0]}
    else if path[0] in m && m[path[0]].Obj? then m[path[0] := Obj(DeleteAt(m[path[0]].fields, path[1..]))]
    else m
  }

  /** Neither path is a prefix of the other. */
  ghost predicate Diverge(p: seq<string>, q: seq<string>) {
    !(p <= q) && !(q <= p)
  }

  lemma {:induction false} GetAfterSet(m: Tree, path: seq<string>, v: Json)
    requires path != []
    ensures GetAt(SetAt(m, path, v), path) == Some(v)
    decreases |path|
  {
    if |path| > 1 {
      GetAfterSet(Child(m, path[0]), path[1..], v);
    }
  }

  /** A write changes nothing off its own path, whatever shape the tree has. */
  lemma {:induction false} SetFrame(m: Tree, p: seq<string>, v: Json, q: seq<string>)
    requires p != [] && q != [] && Diverge(p, q)
    ensures GetAt(SetAt(m, p, v), q) == GetAt(m, q)
    decreases |p|
  {
    if p[0] == q[0] {
      SetFrame(Child(m, p[0]), p[1..], v, q[1..]);
      if p[0] !in m {
        NothingInEmpty(q[1..]);
      }
    }
  }

  lemma NothingInEmpty(q: seq<string>)
    requires q != []
    ensures GetAt(map[], q).None?
  {
  }

  /** Reading one key below a map. */
  lemma {:induction false} GetBelow(m: Tree, p: seq<string>, k: string)
    requires p != [] && GetAt(m, p).Some? && GetAt(m, p).value.Obj?
    ensures GetAt(m, p + [k]) == Lookup(GetAt(m, p).value.fields, k)
    decreases |p|
  {
    if |p| > 1 {
      assert (p + [k])[1..] == p[1..] + [k];
      NothingInEmpty(p[1..]);
      GetBelow(Child(m, p[0]), p[1..], k);
    } else {
      assert (p + [k])[1..] == [k];
    }
  }

  lemma {:induction false} GetAfterDelete(m: Tree, path: seq<string>)
    requires path != []
    ensures GetAt(DeleteAt(m, path), path).None?
    decreases |path|
  {
    if |path| > 1 && path[0] in m {
      if m[path[0]].Obj? {
        GetAfterDelete(m[path[0]].fields, path[1..]);
      } else {
        NothingInEmpty(path[1..]);
      }
    }
  }

  lemma {:induction false} DeleteFrame(m: Tree, p: seq<string>, q: seq<string>)
    requires p != [] && q != [] && Diverge(p, q)
    ensures GetAt(DeleteAt(m, p), q) == GetAt(m, q)
    decreases |p|
  {
    if p[0] == q[0] {
      if p[0] in m && m[p[0]].Obj? {
        DeleteFrame(m[p[0]].fields, p[1..], q[1..]);
      }
    }
  }

  /**
   Seeding a default never changes a value the user has: every value off the path above the
   seeded key is kept, including one already at the key itself.
   */
  lemma {:induction false} DefaultKeepsUserValue(m: Tree, p: seq<string>, v: Json, q: seq<string>)
    requires p != [] && q != [] && !(q < p)
    requires GetAt(m, q).Some?
    ensures GetAt(SetDefaultAt(m, p, v), q) == GetAt(m, q)
    decreases |p|
  {
    if p[0] == q[0] && |p| > 1 {
      assert p == [p[0]] + p[1..] && q == [q[0]] + q[1..];
      assert |q| == 1 ==> q <= p;
      DefaultKeepsUserValue(Child(m, p[0]), p[1..], v, q[1..]);
    }
  }

  lemma {:induction false} GetAfterDefault(m: Tree, path: seq<string>, v: Json)
    requires path != []
    ensures GetAt(SetDefaultAt(m, path, v), path) == Some(if GetAt(m, path).Some? then GetAt(m, path).value else v)
    decreases |path|
  {
    if |path| > 1 {
      GetAfterDefault(Child(m, path[0]), path[1..], v);
      if path[0] !in m {
        NothingInEmpty(path[1..]);
      }
    }
  }

  /** Seeding a default is a write where nothing is there, and no change otherwise. */
  lemma {:induction false} DefaultIsWriteOrNothing(c: Tree, path: seq<string>, v: Json)
    requires path != []
    ensures SetDefaultAt(c, path, v) == if GetAt(c, path).Some? then c else SetAt(c, path, v)
    decreases |path|
  {
    if |path| > 1 {
      var k := path[0];
      DefaultIsWriteOrNothing(Child(c, k), path[1..], v);
      NothingInEmpty(path[1..]);
      if GetAt(c, path).Some? {
        assert c[k := c[k]] == c;
      }
    }
  }

  lemma DefaultFrame(m: Tree, p: seq<string>, v: Json, q: seq<string>)
    requires p != [] && q != [] && Diverge(p, q)
    ensures GetAt(SetDefaultAt(m, p, v), q) == GetAt(m, q)
  {
    DefaultIsWriteOrNothing(m, p, v);
    SetFrame(m, p, v, q);
  }

  /******* Deep merge *******/

  /** Maps are merged key by key; everything else is replaced by the override. */
  function DeepMerge(base: Tree, over: Tree): (r: Tree)
    ensures r.Keys == base.Keys + over.Keys
    decreases Obj(over)
  {
    map k | k in base.Keys + over.Keys ::
      if k !in over then base[k]
      else if k in base && base[k].Obj? && over[k].Obj? then Obj(DeepMerge(base[k].fields, over[k].fields))
      else over[k]
  }

  lemma {:induction false} MergeSelf(a: Tree)
    ensures DeepMerge(a, a) == a
    decreases Obj(a)
  {
    forall k | k in a ensures DeepMerge(a, a)[k] == a[k] {
      if a[k].Obj? {
        MergeSelf(a[k].fields);
      }
    }
  }

  /** Merging the same override again changes nothing. */
  lemma {:induction false} MergeIdempotent(a: Tree, b: Tree)
    ensures DeepMerge(DeepMerge(a, b), b) == DeepMerge(a, b)
    decreases Obj(b)
  {
    var m := DeepMerge(a, b);
    forall k | k in m ensures DeepMerge(m, b)[k] == m[k] {
      if k in b && b[k].Obj? {
        if k in a && a[k].Obj? {
          MergeIdempotent(a[k].fields, b[k].fields);
        } else {
          MergeSelf(b[k].fields);
        }
      }
    }
  }

  /** A leaf of the override is found unchanged at the same place in the merge. */
  lemma {:induction false} MergeKeepsOverrideLeaf(base: Tree, over: Tree, q: seq<string>)
    requires q != [] && GetAt(over, q).Some? && !GetAt(over, q).value.Obj?
    ensures GetAt(DeepMerge(base, over), q) == GetAt(over, q)
    decreases |q|
  {
    if |q| > 1 {
      assert over[q[0]].Obj? by {
        NothingInEmpty(q[1..]);
      }
      if q[0] in base && base[q[0]].Obj? {
        MergeKeepsOverrideLeaf(base[q[0]].fields, over[q[0]].fields, q[1..]);
      }
    }
  }

  function Lookup(m: Tree, k: string): Option<Json> {
    if k in m then Some(m[k]) else None
  }

  /** What one key of the override leaves behind. */
  function MergeValue(b: Option<Json>, o: Json): Json {
    if b.Some? && b.value.Obj? && o.Obj? then Obj(DeepMerge(b.value.fields, o.fields)) else o
  }

  /** The merge while the keys in `rest` are still to be looked at. */
  ghost function MergedUpTo(base: Tree, over: Tree, rest: set<string>): (r: Tree)
    requires rest <= over.Keys
    ensures r.Keys == base.Keys + (over.Keys - rest)
  {
    map k | k in base.Keys + (over.Keys - rest) ::
      if k in over && k !in rest then MergeValue(Lookup(base, k), over[k]) else base[k]
  }

  lemma MergeNextKey(base: Tree, over: Tree, rest: set<string>, k: string)
    requires rest <= over.Keys && k in rest
    ensures Lookup(MergedUpTo(base, over, rest), k) == Lookup(base, k)
    ensures MergedUpTo(base, over, rest - {k})
            == MergedUpTo(base, over, rest)[k := MergeValue(Lookup(base, k), over[k])]
  {
    assert base.Keys + (over.Keys - (rest - {k})) == base.Keys + (over.Keys - rest) + {k};
  }

  lemma MergedInTheEnd(base: Tree, over: Tree)
    ensures MergedUpTo(base, over, over.Keys) == base
    ensures MergedUpTo(base, over, {}) == DeepMerge(base, over)
  {
  }

  /**
   The loop of `deepMerge`: start from the base and overwrite key by key, in any order of
   the override's keys.
   */
  method MergeByKeys(base: Tree, over: Tree) returns (r: Tree)
    ensures r == DeepMerge(base, over)
    decreases Obj(over), 0
  {
    r := base;
    var rest := over.Keys;
    MergedInTheEnd(base, over);
    while rest != {}
      invariant rest <= over.Keys
      invariant r == MergedUpTo(base, over, rest)
      decreases |rest|
    {
      var k :| k in rest;
      MergeNextKey(base, over, rest, k);
      var v := MergeEntry(Lookup(r, k), over[k]);
      r := r[k := v];
      rest := rest - {k};
    }
  }

  method MergeEntry(b: Option<Json>, o: Json) returns (v: Json)
    ensures v == MergeValue(b, o)
    decreases o, 1
  {
    if b.Some? && b.value.Obj? && o.Obj? {
      var merged := MergeByKeys(b.value.fields, o.fields);
      return Obj(merged);
    }
    return o;
  }
}
