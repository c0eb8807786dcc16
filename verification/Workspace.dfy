/** ConfigMap keys of workspace files: "/" is written as "--". */
module Workspace {
  import opened Basics
  import opened Strings
  import opened PathClean

  /** `encodeWorkspacePath`. */
  function Encode(p: string): string {
    if p == "" then "" else (if p[0] == '/' then "--" else [p[0]]) + Encode(p[1..])
  }

  /** Reads a key back from the left: two dashes are a slash. */
  function Decode(k: string): string {
    if k == "" then ""
    else if |k| >= 2 && k[0] == '-' && k[1] == '-' then "/" + Decode(k[2..])
    else [k[0]] + Decode(k[1..])
  }

  /** `strings.ReplaceAll` as a loop over the characters. */
  method EncodeWorkspacePath(p: string) returns (k: string)
    ensures k == Encode(p)
  {
    k := "";
    for i := 0 to |p|
      invariant k + Encode(p[i..]) == Encode(p)
    {
      assert p[i..][1..] == p[i + 1..];
      k := k + if p[i] == '/' then "--" else [p[i]];
    }
    assert p[|p|..] == "";
  }

  predicate DoubleDash(p: string, i: int) {
    0 <= i < |p| - 1 && p[i] == '-' && p[i + 1] == '-'
  }

  predicate DashSlash(p: string, i: int) {
    0 <= i < |p| - 1 && p[i] == '-' && p[i + 1] == '/'
  }

  /** No path segment, apart from the last, ends in a dash. */
  ghost predicate NoDashBeforeSlash(p: string) {
    forall i :: !DashSlash(p, i)
  }

  ghost predicate NoDoubleDash(p: string) {
    forall i :: !DoubleDash(p, i)
  }

  lemma {:induction false} ContainsAt(p: string, c: char, d: char)
    ensures Contains(p, [c, d]) <==> exists i :: 0 <= i < |p| - 1 && p[i] == c && p[i + 1] == d
    decreases |p|
  {
    assert |p| >= 2 && p[0] == c && p[1] == d ==> p[..2] == [c, d];
    if HasPrefix(p, [c, d]) {
      assert p[..2][0] == c && p[..2][1] == d;
      assert p[0] == c && p[0 + 1] == d;
    } else if p != "" {
      var q := p[1..];
      ContainsAt(q, c, d);
      if Contains(q, [c, d]) {
        var i :| 0 <= i < |q| - 1 && q[i] == c && q[i + 1] == d;
        assert p[i + 1] == c && p[i + 1 + 1] == d;
      }
      if i :| 0 <= i < |p| - 1 && p[i] == c && p[i + 1] == d {
        assert q[i - 1] == c && q[i - 1 + 1] == d;
      }
    }
  }

  /** How the encoding of a nonempty path starts. */
  lemma EncodeHead(p: string)
    requires p != ""
    ensures Encode(p) != "" && Encode(p)[0] == if p[0] == '/' then '-' else p[0]
  {
  }

  lemma TailKeeps(p: string)
    requires p != ""
    ensures NoDoubleDash(p) ==> NoDoubleDash(p[1..])
    ensures NoDashBeforeSlash(p) ==> NoDashBeforeSlash(p[1..])
  {
    forall i | DoubleDash(p[1..], i) ensures DoubleDash(p, i + 1) {
    }
    forall i | DashSlash(p[1..], i) ensures DashSlash(p, i + 1) {
    }
  }

  /** Decoding undoes encoding where no dash stands before a slash. */
  lemma {:induction false} DecodeEncode(p: string)
    requires NoDoubleDash(p) && NoDashBeforeSlash(p)
    ensures Decode(Encode(p)) == p
    decreases |p|
  {
    if p != "" {
      var q := p[1..];
      TailKeeps(p);
      DecodeEncode(q);
      var k := Encode(p);
      if p[0] == '/' {
        assert k[2..] == Encode(q);
      } else {
        assert k[1..] == Encode(q);
        if p[0] == '-' && q != "" {
          EncodeHead(q);
          assert !DoubleDash(p, 0) && !DashSlash(p, 0);
        }
      }
    }
  }

  /** A dash before a slash is read back as a slash before a dash. */
  lemma {:induction false} DashSlashIsLost(p: string, i: nat)
    requires NoDoubleDash(p) && DashSlash(p, i) && forall j | 0 <= j < i :: !DashSlash(p, j)
    ensures Decode(Encode(p)) != p
    decreases |p|
  {
    var q := p[1..];
    var k := Encode(p);
    if i == 0 {
      EncodeHead(q);
      assert k == "-" + Encode(q);
      assert Decode(k)[0] == '/';
    } else {
      TailKeeps(p);
      assert forall j | 0 <= j < i - 1 :: !DashSlash(q, j) by {
        assert forall j | 0 <= j < i - 1 && DashSlash(q, j) :: DashSlash(p, j + 1);
      }
      DashSlashIsLost(q, i - 1);
      if p[0] == '/' {
        assert k[2..] == Encode(q);
      } else {
        assert k[1..] == Encode(q);
        EncodeHead(q);
        assert !DoubleDash(p, 0) && !DashSlash(p, 0);
      }
    }
  }

  lemma {:induction false} FirstDashSlash(p: string, i: nat) returns (f: nat)
    requires DashSlash(p, i)
    ensures DashSlash(p, f) && forall j | 0 <= j < f :: !DashSlash(p, j)
    decreases i
  {
    f := i;
    if j :| 0 <= j < i && DashSlash(p, j) {
      f := FirstDashSlash(p, j);
    }
  }

  lemma DashSlashIff(p: string)
    ensures Contains(p, "-/") <==> !NoDashBeforeSlash(p)
  {
    ContainsAt(p, '-', '/');
    assert forall i | 0 <= i < |p| - 1 && p[i] == '-' && p[i + 1] == '/' :: DashSlash(p, i);
  }

  /** A valid path is recovered from its key exactly when no segment before a slash ends in a dash. */
  lemma RoundTripIff(p: string)
    requires NoDoubleDash(p)
    ensures Decode(Encode(p)) == p <==> !Contains(p, "-/")
  {
    DashSlashIff(p);
    if NoDashBeforeSlash(p) {
      DecodeEncode(p);
    } else {
      var i: nat :| DashSlash(p, i);
      var f := FirstDashSlash(p, i);
      DashSlashIsLost(p, f);
    }
  }

  /** Every key without a slash is the key of the path it decodes to. */
  lemma {:induction false} EncodeDecode(k: string)
    requires '/' !in k
    ensures Encode(Decode(k)) == k
    decreases |k|
  {
    if k != "" {
      if |k| >= 2 && k[0] == '-' && k[1] == '-' {
        EncodeDecode(k[2..]);
        assert k == "--" + k[2..] && Decode(k)[1..] == Decode(k[2..]);
      } else {
        EncodeDecode(k[1..]);
        assert k == [k[0]] + k[1..] && Decode(k)[1..] == Decode(k[1..]);
      }
    }
  }

  lemma {:induction false} KeysHaveNoSlash(p: string)
    ensures '/' !in Encode(p)
    decreases |p|
  {
    if p != "" {
      KeysHaveNoSlash(p[1..]);
    }
  }

  /** A path with a dash before a slash has the key of the path its key decodes to, accepted or not. */
  lemma DashBeforeSlashIsShared(p: string)
    requires NoDoubleDash(p) && Contains(p, "-/")
    ensures Decode(Encode(p)) != p && Encode(Decode(Encode(p))) == Encode(p)
  {
    RoundTripIff(p);
    KeysHaveNoSlash(p);
    EncodeDecode(Encode(p));
  }

  /******* Paths that share a key *******/

  /** Somewhere a slash stands beside a dash or another slash. */
  predicate Ambiguous(p: string) {
    Contains(p, "-/") || Contains(p, "/-") || Contains(p, "//")
  }

  /** Position i and the next hold two dashes or slashes. */
  predicate Pair(p: string, i: int) {
    0 <= i < |p| - 1 && p[i] in {'-', '/'} && p[i + 1] in {'-', '/'}
  }

  lemma AmbiguousAt(p: string)
    requires NoDoubleDash(p)
    ensures Ambiguous(p) <==> exists i :: Pair(p, i)
  {
    PairOf(p, '-', '/');
    PairOf(p, '/', '-');
    PairOf(p, '/', '/');
    if i :| Pair(p, i) {
      assert !DoubleDash(p, i);
      PairGives(p, p[i], p[i + 1], i);
    }
  }

  lemma PairOf(p: string, c: char, d: char)
    requires c in {'-', '/'} && d in {'-', '/'}
    ensures Contains(p, [c, d]) ==> exists i :: Pair(p, i)
  {
    ContainsAt(p, c, d);
    if Contains(p, [c, d]) {
      var i :| 0 <= i < |p| - 1 && p[i] == c && p[i + 1] == d;
      assert Pair(p, i);
    }
  }

  lemma PairGives(p: string, c: char, d: char, i: int)
    requires 0 <= i < |p| - 1 && p[i] == c && p[i + 1] == d
    ensures Contains(p, [c, d])
  {
    ContainsAt(p, c, d);
  }

  lemma UnpairedTail(p: string)
    requires p != "" && forall i :: !Pair(p, i)
    ensures forall i :: !Pair(p[1..], i)
  {
    forall i | Pair(p[1..], i) ensures Pair(p, i + 1) {
    }
  }

  /** Without such a pair the key determines the path. */
  lemma {:induction false} UnpairedIsDetermined(p: string, q: string)
    requires NoDoubleDash(p) && NoDoubleDash(q) && (forall i :: !Pair(p, i)) && Encode(p) == Encode(q)
    ensures p == q
    decreases |p|
  {
    if p == "" || q == "" {
      if p != "" { EncodeHead(p); }
      if q != "" { EncodeHead(q); }
    } else {
      SameStart(p, q);
      TailKeeps(p);
      TailKeeps(q);
      UnpairedTail(p);
      assert Encode(p) == EncodeChar(p[0]) + Encode(p[1..]) && Encode(q) == EncodeChar(p[0]) + Encode(q[1..]);
      assert Encode(p)[|EncodeChar(p[0])|..] == Encode(p[1..]) && Encode(q)[|EncodeChar(p[0])|..] == Encode(q[1..]);
      UnpairedIsDetermined(p[1..], q[1..]);
      assert p == [p[0]] + p[1..] && q == [q[0]] + q[1..];
    }
  }

  function EncodeChar(c: char): string {
    if c == '/' then "--" else [c]
  }

  lemma SameStart(p: string, q: string)
    requires p != "" && q != "" && NoDoubleDash(q) && !Pair(p, 0) && Encode(p) == Encode(q)
    ensures p[0] == q[0]
  {
    EncodeHead(p);
    EncodeHead(q);
    if p[0] == '/' && q[0] == '-' {
      SlashAgainstDash(p, q);
    } else if p[0] == '-' && q[0] == '/' {
      DashAgainstSlash(p, q);
    }
  }

  lemma SlashAgainstDash(p: string, q: string)
    requires p != "" && q != "" && p[0] == '/' && q[0] == '-' && NoDoubleDash(q) && Encode(p) == Encode(q)
    ensures Pair(p, 0)
  {
    assert !DoubleDash(q, 0);
    var k := Encode(p);
    assert k == "--" + Encode(p[1..]) && k == "-" + Encode(q[1..]);
    assert Encode(q[1..]) == k[1..] == "-" + Encode(p[1..]);
    EncodeHead(q[1..]);
    assert Encode(q[1..]) == "--" + Encode(q[1..][1..]);
    assert Encode(p[1..]) == k[2..] == "-" + Encode(q[1..][1..]);
    EncodeHead(p[1..]);
  }

  lemma DashAgainstSlash(p: string, q: string)
    requires p != "" && q != "" && p[0] == '-' && q[0] == '/' && Encode(p) == Encode(q)
    ensures Pair(p, 0)
  {
    var k := Encode(p);
    assert k == "-" + Encode(p[1..]) && k == "--" + Encode(q[1..]);
    assert Encode(p[1..]) == k[1..] == "-" + Encode(q[1..]);
    EncodeHead(p[1..]);
  }

  lemma {:induction false} EncodeConcat(p: string, q: string)
    ensures Encode(p + q) == Encode(p) + Encode(q)
    decreases |p|
  {
    if p == "" {
      assert p + q == q;
    } else {
      EncodeConcat(p[1..], q);
      assert (p + q)[1..] == p[1..] + q;
      var (head, a, b) := (EncodeChar(p[0]), Encode(p[1..]), Encode(q));
      assert Encode(p + q) == head + (a + b);
      assert head + (a + b) == head + a + b;
    }
  }

  /** Replaces the `n` characters at i. */
  function Replaced(p: string, i: nat, n: nat, word: string): string
    requires i + n <= |p|
  {
    p[..i] + word + p[i + n..]
  }

  lemma SameKeyReplaced(p: string, i: nat, n: nat, word: string)
    requires i + n <= |p| && Encode(word) == Encode(p[i..i + n])
    ensures Encode(Replaced(p, i, n, word)) == Encode(p)
  {
    assert p == p[..i] + p[i..i + n] + p[i + n..];
    EncodeConcat(p[..i] + p[i..i + n], p[i + n..]);
    EncodeConcat(p[..i], p[i..i + n]);
    EncodeConcat(p[..i] + word, p[i + n..]);
    EncodeConcat(p[..i], word);
  }

  lemma NoDashesReplaced(p: string, i: nat, n: nat, word: string)
    requires i + n <= |p| && NoDoubleDash(p) && NoDoubleDash(word) && word != ""
    requires i > 0 && p[i - 1] == '-' ==> word[0] != '-'
    requires i + n < |p| && p[i + n] == '-' ==> word[|word| - 1] != '-'
    ensures NoDoubleDash(Replaced(p, i, n, word))
  {
    var q := Replaced(p, i, n, word);
    forall k ensures !DoubleDash(q, k) {
      assert k < i - 1 ==> !DoubleDash(p, k);
      assert i <= k < i + |word| - 1 ==> !DoubleDash(word, k - i);
      assert k >= i + |word| ==> !DoubleDash(p, k - |word| + n);
    }
  }

  lemma Rewrites()
    ensures Encode("-/") == Encode("/-") && Encode("//") == Encode("-/-")
    ensures forall w | w in {"-/", "/-", "//", "-/-"} :: NoDoubleDash(w)
  {
    assert Encode("-/") == "---" == Encode("/-");
    assert Encode("//") == "----" == Encode("-/-");
  }

  /** The rewriting at the first pair: what to replace, and by what. */
  function Rewrite(p: string, i: nat): (r: (nat, nat, string))
    requires Pair(p, i)
  {
    var next := if i + 2 < |p| then p[i + 2] else ' ';
    if p[i] == '-' then (if next == '-' then (i, 3, "//") else (i, 2, "/-"))
    else if p[i + 1] == '-' then (i, 2, "-/")
    else if next == '-' then (i + 1, 2, "-/")
    else (i, 2, "-/-")
  }

  lemma {:induction false} FirstPair(p: string, i: nat) returns (f: nat)
    requires Pair(p, i)
    ensures Pair(p, f) && forall j | 0 <= j < f :: !Pair(p, j)
    decreases i
  {
    f := i;
    if j :| 0 <= j < i && Pair(p, j) {
      f := FirstPair(p, j);
    }
  }

  /** What is replaced is there, and the replacement brings no double dash. */
  lemma RewriteFits(p: string, i: nat)
    requires NoDoubleDash(p) && Pair(p, i) && (i > 0 ==> !Pair(p, i - 1))
    ensures var (at, n, word) := Rewrite(p, i);
            && at + n <= |p|
            && p[at..at + n] == (if word == "//" then "-/-" else if word == "/-" then "-/" else if word == "-/" then "/-" else "//")
            && (at > 0 && p[at - 1] == '-' ==> word[0] != '-')
            && (at + n < |p| && p[at + n] == '-' ==> word[|word| - 1] != '-')
            && p[at] != word[0] && word in {"-/", "/-", "//", "-/-"}
  {
    assert !DoubleDash(p, i) && !DoubleDash(p, i + 1);
    assert p[i..i + 2] == [p[i], p[i + 1]];
    assert i + 2 < |p| ==> p[i..i + 3] == [p[i], p[i + 1], p[i + 2]] && p[i + 1..i + 3] == [p[i + 1], p[i + 2]];
  }

  /** Another path with the same key, which starts with the same character unless that is a dash or a slash. */
  lemma Respelled(p: string) returns (q: string)
    requires NoDoubleDash(p) && Ambiguous(p)
    ensures q != p && Encode(q) == Encode(p) && NoDoubleDash(q)
    ensures p[0] !in {'-', '/'} ==> q != "" && q[0] == p[0]
  {
    AmbiguousAt(p);
    var any: int :| Pair(p, any);
    var i := FirstPair(p, any);
    Rewrites();
    RewriteFits(p, i);
    var (at, n, word) := Rewrite(p, i);
    q := Replaced(p, at, n, word);
    SameKeyReplaced(p, at, n, word);
    NoDashesReplaced(p, at, n, word);
    assert q[at] == word[0] != p[at];
  }

  /******* Validation *******/

  datatype Refusal = Empty | Absolute | DotDot | ReservedDelimiter | PlatformSkill | KubernetesSkill

  /** A cleaned path is the directory of an operator-managed skill or lies below it. */
  predicate InSkill(clean: string, name: string) {
    HasPrefix(clean, "skills/" + name + "/") || clean == "skills/" + name
  }

  /** Why a path is refused; None for a path that is accepted. */
  function Refused(p: string): Option<Refusal> {
    if p == "" then Some(Empty)
    else if p[0] == '/' then Some(Absolute)
    else if Contains(p, "..") then Some(DotDot)
    else if Contains(p, "--") then Some(ReservedDelimiter)
    else if InSkill(Clean(p), "platform") then Some(PlatformSkill)
    else if InSkill(Clean(p), "kubernetes") then Some(KubernetesSkill)
    else None
  }

  /** `validateWorkspaceFiles`: accepts a set of paths exactly when every path is fine. */
  method ValidateWorkspaceFiles(files: map<string, string>) returns (refusal: Option<(string, Refusal)>)
    ensures refusal.None? <==> forall p | p in files :: Refused(p).None?
    ensures refusal.Some? ==> refusal.value.0 in files && Refused(refusal.value.0) == Some(refusal.value.1)
  {
    var rest := files.Keys;
    while rest != {}
      invariant rest <= files.Keys
      invariant forall p | p in files && p !in rest :: Refused(p).None?
      decreases |rest|
    {
      var p :| p in rest;
      var r := Refused(p);
      if r.Some? {
        return Some((p, r.value));
      }
      rest := rest - {p};
    }
    return None;
  }

  /** An entry is there already, or is the content of a workspace file under its key. */
  ghost predicate Explained(files: map<string, string>, data: map<string, string>, k: string, content: string) {
    (k in data && content == data[k]) || exists p :: p in files && k == Key(p) && content == files[p]
  }

  ghost predicate IsKey(files: map<string, string>, k: string) {
    exists p :: p in files && k == Key(p)
  }

  ghost predicate AllFine(files: map<string, string>) {
    forall p | p in files :: Refused(p).None?
  }

  /** No path has a dash before a slash. */
  ghost predicate AllPlain(files: map<string, string>) {
    forall p | p in files :: !Contains(p, "-/")
  }

  /**
   `injectWorkspaceFiles`: nothing is written unless every path is fine; then every file is
   found under its key, provided no path has a dash before a slash.
   */
  method InjectWorkspaceFiles(files: map<string, string>, data: map<string, string>)
    returns (refusal: Option<(string, Refusal)>, out: map<string, string>)
    ensures refusal.None? <==> AllFine(files)
    ensures refusal.Some? ==> out == data
    ensures forall k | k in out :: Explained(files, data, k, out[k])
    ensures forall k | k in data && !IsKey(files, k) :: k in out && out[k] == data[k]
    ensures refusal.None? ==> forall p | p in files :: Key(p) in out
    ensures refusal.None? && AllPlain(files) ==> forall p | p in files :: Key(p) in out && out[Key(p)] == files[p]
  {
    refusal := ValidateWorkspaceFiles(files);
    if refusal.Some? {
      return refusal, data;
    }
    OwnKeys(files);
    out := PlaceWorkspaceFiles(files, data, AllPlain(files));
    PlacedMeans(files, data, out);
  }

  method PlaceWorkspaceFiles(files: map<string, string>, data: map<string, string>, ghost distinct: bool) returns (out: map<string, string>)
    requires distinct ==> forall p, q | p in files && q in files && Key(p) == Key(q) :: p == q
    ensures Placed(Key, distinct, files, data, files.Keys, out)
  {
    out := data;
    var rest := files.Keys;
    ghost var done: set<string> := {};
    while rest != {}
      invariant rest + done == files.Keys
      invariant Placed(Key, distinct, files, data, done, out)
      decreases |rest|
    {
      var p :| p in rest;
      var k := EncodeWorkspacePath(p);
      k := "_ws_" + k;
      assert k == Key(p);
      PlaceOne(Key, distinct, files, data, done, out, p);
      out := out[k := files[p]];
      rest, done := rest - {p}, done + {p};
    }
    assert done == files.Keys;
  }

  /** These files have been placed under their keys; where no two keys are equal, none is lost. */
  ghost predicate Placed(key: string -> string, distinct: bool, files: map<string, string>, data: map<string, string>,
                         done: set<string>, out: map<string, string>)
  {
    && (forall k | k in out :: (k in data && out[k] == data[k]) || exists p :: p in files && k == key(p) && out[k] == files[p])
    && (forall k | k in data && !(exists p :: p in files && k == key(p)) :: k in out && out[k] == data[k])
    && (forall p | p in files && p in done :: key(p) in out)
    && (distinct ==> forall p | p in files && p in done :: key(p) in out && out[key(p)] == files[p])
  }

  lemma PlaceOne(key: string -> string, distinct: bool, files: map<string, string>, data: map<string, string>,
                 done: set<string>, out: map<string, string>, p: string)
    requires p in files && Placed(key, distinct, files, data, done, out)
    requires distinct ==> forall q | q in files && key(q) == key(p) :: q == p
    ensures Placed(key, distinct, files, data, done + {p}, out[key(p) := files[p]])
  {
  }

  lemma PlacedMeans(files: map<string, string>, data: map<string, string>, out: map<string, string>)
    requires Placed(Key, AllPlain(files), files, data, files.Keys, out)
    ensures forall k | k in out :: Explained(files, data, k, out[k])
    ensures forall k | k in data && !IsKey(files, k) :: k in out && out[k] == data[k]
    ensures forall p | p in files :: Key(p) in out
    ensures AllPlain(files) ==> forall p | p in files :: Key(p) in out && out[Key(p)] == files[p]
  {
  }

  lemma OwnKeys(files: map<string, string>)
    requires AllFine(files)
    ensures AllPlain(files) ==> forall p, q | p in files && q in files && Key(p) == Key(q) :: p == q
  {
    if AllPlain(files) {
      forall p, q | p in files && q in files && Key(p) == Key(q) ensures p == q {
        KeysAreDistinct(p, q);
      }
    }
  }

  function Key(p: string): string {
    "_ws_" + Encode(p)
  }

  /** Accepted paths without a dash before a slash get distinct keys. */
  lemma KeysAreDistinct(p: string, q: string)
    requires Refused(p).None? && Refused(q).None?
    requires !Contains(p, "-/") && !Contains(q, "-/")
    ensures Key(p) == Key(q) <==> p == q
  {
    ContainsAt(p, '-', '-');
    ContainsAt(q, '-', '-');
    RoundTripIff(p);
    RoundTripIff(q);
    if Key(p) == Key(q) {
      assert Key(p)[4..] == Encode(p) && Key(q)[4..] == Encode(q);
    }
  }

  /** An accepted path other than p that has p's key. */
  ghost predicate Sharer(p: string, q: string) {
    q != p && Refused(q).None? && Key(q) == Key(p)
  }

  lemma SameKeySameEncoding(p: string, q: string)
    ensures Key(p) == Key(q) <==> Encode(p) == Encode(q)
  {
    assert Key(p)[4..] == Encode(p) && Key(q)[4..] == Encode(q);
  }

  /** On accepted paths without an ambiguous slash the key determines the path. */
  lemma SharedOnlyIfAmbiguous(p: string, q: string)
    requires Refused(p).None? && Sharer(p, q)
    ensures Ambiguous(p)
  {
    ContainsAt(p, '-', '-');
    ContainsAt(q, '-', '-');
    SameKeySameEncoding(p, q);
    AmbiguousAt(p);
    if !Ambiguous(p) {
      UnpairedIsDetermined(p, q);
    }
  }

  lemma {:induction false} DotsInKey(p: string)
    ensures Contains(p, "..") <==> Contains(Encode(p), "..")
    decreases |p|
  {
    if p != "" {
      var q := p[1..];
      DotsInKey(q);
      var k := Encode(p);
      assert HasPrefix(p, "..") <==> p[0] == '.' && q != "" && q[0] == '.' by {
        assert |p| >= 2 ==> p[..2] == [p[0], q[0]];
      }
      if q != "" { EncodeHead(q); }
      assert HasPrefix(k, "..") <==> k[0] == '.' && k[1..] != "" && k[1..][0] == '.' by {
        assert |k| >= 2 ==> k[..2] == [k[0], k[1..][0]];
      }
      if p[0] == '/' {
        assert k == "--" + Encode(q) && k[1..] == "-" + Encode(q) && k[1..][1..] == Encode(q);
        assert !HasPrefix(k, "..") && !HasPrefix(k[1..], "..");
      } else {
        assert k == [p[0]] + Encode(q) && k[1..] == Encode(q);
      }
    }
  }

  lemma {:induction false} NoDotDotSegment(p: string)
    requires !Contains(p, "..")
    ensures forall i | 0 <= i < |Split(p)| :: Split(p)[i] != ".."
    decreases |p|
  {
    var i := IndexOf(p, '/');
    if i < |p| {
      NoDotsIn(p, i + 1);
      NoDotDotSegment(p[i + 1..]);
    }
  }

  lemma {:induction false} NoDotsIn(p: string, i: nat)
    requires i <= |p| && !Contains(p, "..")
    ensures !Contains(p[i..], "..")
    decreases i
  {
    if i > 0 {
      NoDotsIn(p[1..], i - 1);
      assert p[1..][i - 1..] == p[i..];
    }
  }

  /** Cleaning never removes a segment that is kept when no later segment is "..". */
  lemma {:induction false} CanonKeepsFirst(segs: seq<string>, done: seq<string>)
    requires done != [] && forall i | 0 <= i < |segs| :: segs[i] != ".."
    ensures var c := Canon(false, segs, done); c != [] && c[0] == done[0]
    decreases |segs|
  {
    if segs != [] {
      var s := segs[0];
      CanonKeepsFirst(segs[1..], if s == "" || s == "." then done else done + [s]);
    }
  }

  /** What follows the leading dots and slashes. */
  function SkipDots(p: string): string {
    if p != "" && p[0] in {'.', '/'} then SkipDots(p[1..]) else p
  }

  lemma SkipSegment(p: string, i: nat)
    requires i < |p| && p[i] == '/' && (p[..i] == "" || p[..i] == ".")
    ensures SkipDots(p) == SkipDots(p[i + 1..])
  {
    if i == 1 {
      assert p[0] == p[..1][0] == '.';
      assert p[1..][1..] == p[2..];
    }
  }

  lemma KeptFirst(p: string)
    requires var s := Split(p)[0]; s != "" && s != "." && !Contains(p, "..")
    ensures var c := Canon(false, Split(p), []); c != [] && c[0] == Split(p)[0] && (|Split(p)| == 1 ==> |c| == 1)
  {
    var segs := Split(p);
    NoDotDotSegment(p);
    assert [] + [segs[0]] == [segs[0]];
    CanonKeepsFirst(segs[1..], [segs[0]]);
  }

  /** Where the first segment that cleaning keeps is "skills" and another is kept, that is how the path starts. */
  lemma {:induction false} SkillsFirst(p: string)
    requires !Contains(p, "..")
    requires var c := Canon(false, Split(p), []); |c| > 1 && c[0] == "skills"
    ensures HasPrefix(SkipDots(p), "skills/")
    decreases |p|
  {
    var i := IndexOf(p, '/');
    var s := Split(p)[0];
    assert s == p[..i];
    if s == "" || s == "." {
      assert i < |p| && Split(p)[1..] == Split(p[i + 1..]);
      SkipSegment(p, i);
      NoDotsIn(p, i + 1);
      SkillsFirst(p[i + 1..]);
    } else {
      KeptFirst(p);
      assert p[0] == s[0] == 's' && i < |p|;
      assert p[..7] == s + "/";
    }
  }

  lemma InSkillStart(clean: string, name: string)
    requires InSkill(clean, name)
    ensures HasPrefix(clean, "skills/")
  {
    assert HasPrefix(clean, "skills/" + name);
    assert clean[..7] == clean[..|"skills/" + name|][..7] == ("skills/" + name)[..7];
  }

  lemma CleanFirst(p: string)
    requires p != "" && p[0] != '/' && Canonical(p) != []
    ensures var (c, rest) := (Canonical(p), Render(Canonical(p)[1..]));
            '/' !in c[0] && Clean(p) == c[0] + rest && (if |c| > 1 then rest != "" && rest[0] == '/' else rest == "")
  {
    CanonicalGivesSegments(p);
    var c := Canonical(p);
    assert IsSegment(c[0]);
    assert Render(c) == "/" + (c[0] + Render(c[1..]));
  }

  lemma HeadIsWord(c: seq<string>, w: string)
    requires c != [] && '/' !in c[0] && '/' !in w && HasPrefix(c[0] + Render(c[1..]), w + "/")
    ensures |c| > 1 && c[0] == w
  {
    HeadSegment(c[0], Render(c[1..]), w, "/");
  }

  /** A path that cleans into a skill directory starts with "skills/", dots and slashes aside. */
  lemma ReservedStart(p: string, name: string)
    requires p != "" && p[0] != '/' && !Contains(p, "..") && InSkill(Clean(p), name)
    ensures HasPrefix(SkipDots(p), "skills/")
  {
    InSkillStart(Clean(p), name);
    CharOfPrefix(Clean(p), "skills/", 0);
    assert Canonical(p) != [];
    CleanFirst(p);
    HeadIsWord(Canonical(p), "skills");
    SkillsFirst(p);
  }

  lemma CharOfPrefix(x: string, w: string, i: nat)
    requires HasPrefix(x, w) && i < |w|
    ensures x[i] == w[i]
  {
    assert x[..|w|][i] == w[i];
  }

  lemma NoDoubleDashIff(q: string)
    ensures NoDoubleDash(q) <==> !Contains(q, "--")
  {
    ContainsAt(q, '-', '-');
    if Contains(q, "--") {
      var i :| 0 <= i < |q| - 1 && q[i] == '-' && q[i + 1] == '-';
      assert DoubleDash(q, i);
    }
  }

  lemma SameKeySameDots(p: string, q: string)
    requires Encode(p) == Encode(q)
    ensures Contains(p, "..") == Contains(q, "..")
  {
    DotsInKey(p);
    DotsInKey(q);
  }

  /** Respelling dashes and slashes does not make a path refused, unless it reaches a reserved skill directory. */
  lemma RespellingAccepted(p: string, q: string)
    requires !Contains(p, "..") && Encode(p) == Encode(q) && NoDoubleDash(q)
    requires q != "" && q[0] != '/' && !HasPrefix(SkipDots(q), "skills/")
    ensures Refused(q).None?
  {
    SameKeySameDots(p, q);
    NoDoubleDashIff(q);
    if InSkill(Clean(q), "platform") { ReservedStart(q, "platform"); }
    if InSkill(Clean(q), "kubernetes") { ReservedStart(q, "kubernetes"); }
  }

  /** What follows the leading dots, slashes and dashes: the same for all spellings of a key. */
  function AfterLead(p: string): string {
    if p != "" && p[0] in {'.', '/', '-'} then AfterLead(p[1..]) else p
  }

  /** A path whose key does not allow a spelling under "skills/". */
  predicate Ordinary(p: string) {
    p != "" && p[0] != '-' && !HasPrefix(AfterLead(p), "skills/") && !HasPrefix(AfterLead(p), "skills-")
  }

  lemma {:induction false} LeadInKey(p: string)
    ensures AfterLead(Encode(p)) == Encode(AfterLead(p))
  {
    if p != "" && p[0] in {'.', '/', '-'} {
      LeadInKey(p[1..]);
      var k, rest := Encode(p), Encode(p[1..]);
      if p[0] == '/' {
        assert k == "--" + rest && k[1..] == "-" + rest && k[1..][1..] == rest;
      } else {
        assert k == [p[0]] + rest && k[1..] == rest;
      }
    } else if p != "" {
      EncodeHead(p);
    }
  }

  lemma {:induction false} LeadAfterDots(p: string)
    ensures AfterLead(SkipDots(p)) == AfterLead(p)
  {
    if p != "" && p[0] in {'.', '/'} {
      LeadAfterDots(p[1..]);
    }
  }

  lemma SlashAfterWord(p: string, q: string, w: string)
    requires Encode(p) == Encode(q) && HasPrefix(q, w + "/") && '-' !in w && '/' !in w
    ensures HasPrefix(p, w + "/") || HasPrefix(p, w + "-")
  {
    var n := |w|;
    assert q[..n] == q[..n + 1][..n] == (w + "/")[..n] == w && q[n] == q[..n + 1][n] == '/';
    assert forall i | 0 <= i < n :: q[i] == w[i] && w[i] in w;
    SameWordStart(q, p, n);
    assert p == w + p[n..] && q == w + q[n..];
    EncodeConcat(w, p[n..]);
    EncodeConcat(w, q[n..]);
    assert Encode(p[n..]) == Encode(p)[|Encode(w)|..] == Encode(q[n..]);
    EncodeHead(q[n..]);
    assert p[n..] != "";
    EncodeHead(p[n..]);
    assert p[n] in {'-', '/'};
    assert p[..n + 1] == w + [p[n]];
  }

  /** On ordinary paths no other spelling of the key reaches a skill directory. */
  lemma OrdinaryElsewhere(p: string, q: string)
    requires Encode(p) == Encode(q) && Ordinary(p)
    ensures !HasPrefix(SkipDots(q), "skills/")
  {
    if HasPrefix(SkipDots(q), "skills/") {
      LeadInKey(p);
      LeadInKey(q);
      LeadAfterDots(q);
      CharOfPrefix(SkipDots(q), "skills/", 0);
      SlashAfterWord(AfterLead(p), SkipDots(q), "skills");
    }
  }

  lemma {:induction false} SameWordStart(p: string, q: string, n: nat)
    requires Encode(p) == Encode(q) && n <= |p| && forall i | 0 <= i < n :: p[i] !in {'-', '/'}
    ensures n <= |q| && p[..n] == q[..n]
    decreases n
  {
    if n > 0 {
      EncodeHead(p);
      assert q != "";
      EncodeHead(q);
      assert Encode(p)[1..] == Encode(p[1..]) && Encode(q)[1..] == Encode(q[1..]);
      SameWordStart(p[1..], q[1..], n - 1);
      assert p[..n] == [p[0]] + p[1..][..n - 1] && q[..n] == [q[0]] + q[1..][..n - 1];
    }
  }

  lemma OrdinaryRespelled(p: string) returns (q: string)
    requires Refused(p).None? && Ordinary(p) && Ambiguous(p)
    ensures Sharer(p, q)
  {
    ContainsAt(p, '-', '-');
    q := Respelled(p);
    OrdinaryElsewhere(p, q);
    RespellingAccepted(p, q);
  }

  /**
   The exact condition for ordinary accepted paths: another accepted path has the same key if
   and only if a slash stands beside a dash or another slash.
   */
  lemma SharedIffAmbiguous(p: string)
    requires Refused(p).None? && Ordinary(p)
    ensures (exists q :: Sharer(p, q)) <==> Ambiguous(p)
  {
    if q :| Sharer(p, q) {
      SharedOnlyIfAmbiguous(p, q);
    }
    if Ambiguous(p) {
      var q := OrdinaryRespelled(p);
    }
  }

  /** What a leading dash leaves free to be spelled otherwise: an accepted path cannot begin with a slash. */
  function AfterLeadingDash(p: string): string
    requires p != ""
  {
    if HasPrefix(p, "-/") then p[2..] else p[1..]
  }

  lemma LeadingDashRespelled(p: string, n: nat) returns (q: string)
    requires Refused(p).None? && p[0] == '-' && n == (if HasPrefix(p, "-/") then 2 else 1) && Ambiguous(p[n..])
    ensures Sharer(p, q)
  {
    var head, rest := p[..n], p[n..];
    assert p == head + rest;
    NoDoubleDashIff(p);
    RestNoDashes(p, n);
    var r := Respelled(rest);
    q := head + r;
    EncodeConcat(head, rest);
    EncodeConcat(head, r);
    assert !DoubleDash(p, 0);
    assert |p| > 1 ==> p[..2] == [p[0], p[1]];
    HeadKeepsNoDashes(p, head, rest, r);
    assert q[0] == '-' && q[n..] == r;
    if HasPrefix(q, "skills/") { CharOfPrefix(q, "skills/", 0); }
    RespellingAccepted(p, q);
  }

  lemma RestNoDashes(p: string, n: nat)
    requires n <= |p| && NoDoubleDash(p)
    ensures NoDoubleDash(p[n..])
  {
    forall i | DoubleDash(p[n..], i) ensures DoubleDash(p, i + n) {
    }
  }

  /** With a leading dash the same holds of what follows it and, where there is one, the slash after it. */
  lemma SharedIffAmbiguousAfterDash(p: string)
    requires Refused(p).None? && p[0] == '-'
    ensures (exists q :: Sharer(p, q)) <==> Ambiguous(AfterLeadingDash(p))
  {
    var n := if HasPrefix(p, "-/") then 2 else 1;
    NoDoubleDashIff(p);
    if q :| Sharer(p, q) {
      SharerKeepsHead(p, q);
      RestNoDashes(p, n);
      AmbiguousAt(p[n..]);
      if !Ambiguous(p[n..]) {
        UnpairedIsDetermined(p[n..], q[n..]);
      }
    }
    if Ambiguous(p[n..]) {
      var q := LeadingDashRespelled(p, n);
    }
  }

  lemma HeadKeepsNoDashes(p: string, head: string, rest: string, r: string)
    requires p == head + rest && NoDoubleDash(p) && NoDoubleDash(r) && rest != ""
    requires head == "-/" || (head == "-" && rest[0] !in {'-', '/'} && r != "" && r[0] == rest[0])
    ensures NoDoubleDash(head + r)
  {
    forall i ensures !DoubleDash(head + r, i) {
      assert i >= |head| ==> !DoubleDash(r, i - |head|);
    }
  }

  lemma SharerKeepsHead(p: string, q: string)
    requires NoDoubleDash(p) && p != "" && p[0] == '-' && Sharer(p, q)
    ensures var n := if HasPrefix(p, "-/") then 2 else 1;
            && |q| >= n && q[..n] == p[..n] && NoDoubleDash(q[n..]) && Encode(q[n..]) == Encode(p[n..]) && q[n..] != p[n..]
  {
    var n := if HasPrefix(p, "-/") then 2 else 1;
    ContainsAt(q, '-', '-');
    SameKeySameEncoding(p, q);
    EncodeHead(p);
    EncodeHead(q);
    assert q[0] == '-';
    assert !DoubleDash(p, 0) && !DoubleDash(q, 0);
    assert Encode(p) == "-" + Encode(p[1..]) && Encode(q) == "-" + Encode(q[1..]);
    assert Encode(p)[1..] == Encode(p[1..]) && Encode(q)[1..] == Encode(q[1..]);
    if n == 2 {
      assert p[1] == p[..2][1] == '/';
      EncodeHead(p[1..]);
      assert q[1..] != "";
      EncodeHead(q[1..]);
      assert q[1] == '/';
      assert Encode(p[1..])[2..] == Encode(p[1..][1..]) && Encode(q[1..])[2..] == Encode(q[1..][1..]);
      assert p[1..][1..] == p[2..] && q[1..][1..] == q[2..];
    }
    assert p == p[..n] + p[n..] && q == q[..n] + q[n..];
    assert forall i | DoubleDash(q[n..], i) :: DoubleDash(q, i + n);
  }

  predicate PlainWord(w: string) {
    w != "" && '-' !in w && '/' !in w && '.' !in w
  }

  /** Two words joined by "-/-" can be spelled in one other way. */
  lemma OneRespelling(s: string, t: string, q: string)
    requires PlainWord(s) && PlainWord(t) && NoDoubleDash(q) && Encode(q) == Encode(s + ("-/-" + t))
    ensures q == s + ("-/-" + t) || q == s + ("//" + t)
  {
    var p := s + ("-/-" + t);
    assert forall i | 0 <= i < |s| :: p[i] == s[i] && s[i] in s;
    SameWordStart(p, q, |s|);
    assert p[..|s|] == s && q == s + q[|s|..];
    EncodeConcat(s, "-/-" + t);
    EncodeConcat(s, q[|s|..]);
    assert Encode(q[|s|..]) == Encode(q)[|Encode(s)|..];
    RestNoDashes(q, |s|);
    FourDashes(q[|s|..], t);
  }

  lemma DoubleSlashSplits(s: string, t: string)
    requires PlainWord(s) && PlainWord(t)
    ensures Split(s + ("//" + t)) == [s, "", t] && !Rooted(s + ("//" + t))
  {
    var p := s + ("//" + t);
    assert "//" + t == "/" + ("/" + t) && "" + ("/" + t) == "/" + t;
    SplitAt(s, "/" + t);
    SplitAt("", t);
    assert Split(t) == [t];
    assert p[0] == s[0] && s[0] in s;
  }

  lemma CanonOfThree(s: string, t: string)
    requires PlainWord(s) && PlainWord(t)
    ensures Canon(false, [s, "", t], []) == [s, t]
  {
    assert s != ".." && t != ".." && s != "." && t != "." by {
      assert '.' in "." && '.' in "..";
    }
    assert [s, "", t][1..] == ["", t] && ["", t][1..] == [t] && [t][1..] == [];
    assert [] + [s] == [s] && [s] + [t] == [s, t];
    assert Canon(false, [t], [s]) == [s, t];
    assert Canon(false, ["", t], [s]) == [s, t];
  }

  lemma DoubleSlashCleans(s: string, t: string)
    requires PlainWord(s) && PlainWord(t)
    ensures Clean(s + ("//" + t)) == s + ("/" + t)
  {
    DoubleSlashSplits(s, t);
    CanonOfThree(s, t);
    RenderTwo(s, t);
  }

  lemma SkillHasSlash(clean: string, name: string)
    ensures InSkill(clean, name) ==> |clean| > 6 && clean[6] == '/'
  {
    if InSkill(clean, name) {
      InSkillStart(clean, name);
      CharOfPrefix(clean, "skills/", 6);
    }
  }

  lemma DashedWordsAccepted(s: string, t: string)
    requires PlainWord(s) && PlainWord(t) && |s| == 6
    ensures var p := s + ("-/-" + t); Refused(p).None? && Ambiguous(p)
  {
    var p := s + ("-/-" + t);
    assert p == (s + "-") + "/" + ("-" + t);
    assert p[0] == s[0] && s[0] in s && p[6] == '-' && p[7] == '/';
    assert '.' !in p;
    assert forall i | 0 <= i < |p| - 1 :: p[i] != '-' || p[i + 1] != '-' by {
      assert forall i | 0 <= i < 6 :: p[i] in s;
      assert forall i | 9 <= i < |p| :: p[i] == t[i - 9] && p[i] in t;
    }
    NoPair(p, '.', '.');
    NoPair(p, '-', '-');
    TwoSegments(p, s + "-", "-" + t);
    PairGives(p, '-', '/', 6);
    SkillHasSlash(p, "platform");
    SkillHasSlash(p, "kubernetes");
  }

  /**
   A path that begins with "skills" can be ambiguous and share its key with no accepted path:
   the only other spelling here is a reserved directory, which is refused.
   */
  lemma ReservedRespellingIsNoSharer(q: string)
    ensures var p := "skills" + ("-/-" + "platform"); Refused(p).None? && Ambiguous(p) && !Sharer(p, q)
  {
    var s, t := "skills", "platform";
    var p := s + ("-/-" + t);
    DashedWordsAccepted(s, t);
    DoubleSlashCleans(s, t);
    assert s + ("/" + t) == "skills/" + t;
    if Sharer(p, q) {
      SameKeySameEncoding(p, q);
      NoDoubleDashIff(q);
      OneRespelling(s, t, q);
    }
  }

  lemma FourDashes(t: string, w: string)
    requires NoDoubleDash(t) && w != "" && '-' !in w && '/' !in w && Encode(t) == Encode("-/-" + w)
    ensures t == "-/-" + w || t == "//" + w
  {
    EncodeConcat("-/-", w);
    assert Encode("-/-") == "----";
    assert Encode(t)[0] == '-';
    EncodeHead(t);
    if t[0] == '/' {
      AfterSlash(t, w);
    } else {
      AfterDash(t, w);
    }
  }

  lemma AfterSlash(t: string, w: string)
    requires NoDoubleDash(t) && t != "" && t[0] == '/' && '-' !in w && '/' !in w && Encode(t) == "----" + Encode(w)
    ensures t == "//" + w
  {
    var u := t[1..];
    assert ("/" + w)[1..] == w;
    assert Encode(t) == "--" + Encode(u) && "----" + Encode(w) == "--" + ("--" + Encode(w));
    assert Encode(u) == ("--" + Encode(u))[2..] == ("--" + ("--" + Encode(w)))[2..] == Encode("/" + w);
    RestNoDashes(t, 1);
    UnpairedIsDetermined("/" + w, u);
    assert t == "/" + u;
  }

  lemma AfterDash(t: string, w: string)
    requires NoDoubleDash(t) && t != "" && t[0] == '-' && '-' !in w && '/' !in w && Encode(t) == "----" + Encode(w)
    ensures t == "-/-" + w
  {
    var u := t[1..];
    assert Encode(u) == Encode(t)[1..] == "---" + Encode(w);
    EncodeHead(u);
    assert !DoubleDash(t, 0);
    assert u[0] == '/';
    SlashLeaves(u, w);
    assert u[1..] == t[2..];
    RestNoDashes(t, 2);
    UnpairedIsDetermined("-" + w, t[2..]);
    assert t == "-/" + t[2..];
  }

  lemma SlashLeaves(u: string, w: string)
    requires u != "" && u[0] == '/' && Encode(u) == "---" + Encode(w)
    ensures Encode(u[1..]) == Encode("-" + w)
  {
    EncodeConcat("-", w);
    assert Encode("-") == "-";
    assert Encode(u)[2..] == Encode(u[1..]);
  }

  /** The side condition is needed: two accepted paths with one key. */
  lemma DashBeforeSlashCollides()
    ensures "a-/b" != "a/-b" && Refused("a-/b").None? && Refused("a/-b").None?
    ensures Key("a-/b") == Key("a/-b")
  {
    assert "a-/b"[1] != "a/-b"[1];
    Rewrites();
    assert "a-/b"[1..3] == "-/" && Replaced("a-/b", 1, 2, "/-") == "a/-b";
    SameKeyReplaced("a-/b", 1, 2, "/-");
    AcceptedPair("a-/b", "a-", "b");
    AcceptedPair("a/-b", "a", "-b");
  }

  lemma AcceptedPair(p: string, s: string, t: string)
    requires p == s + "/" + t && s != "" && t != "" && '/' !in s && '/' !in t && '.' !in s && '.' !in t
    requires s[0] != 's' && forall i | 0 <= i < |p| - 1 :: p[i] != '-' || p[i + 1] != '-'
    ensures Refused(p).None?
  {
    assert p[0] == s[0] && s[0] in s;
    assert '.' !in p;
    NoPair(p, '.', '.');
    NoPair(p, '-', '-');
    TwoSegments(p, s, t);
    NotInSkill(p, "platform");
    NotInSkill(p, "kubernetes");
  }

  lemma NotInSkill(p: string, name: string)
    requires p != "" && p[0] != 's'
    ensures !InSkill(p, name)
  {
    if InSkill(p, name) {
      InSkillStart(p, name);
      CharOfPrefix(p, "skills/", 0);
    }
  }

  lemma NoPair(p: string, c: char, d: char)
    requires forall i | 0 <= i < |p| - 1 :: p[i] != c || p[i + 1] != d
    ensures !Contains(p, [c, d])
  {
    ContainsAt(p, c, d);
  }

  lemma CanonOfTwo(s: string, t: string)
    requires s != "" && t != "" && s != "." && t != "." && s != ".." && t != ".."
    ensures Canon(false, [s, t], []) == [s, t]
  {
    assert [s, t][1..] == [t] && [t][1..] == [];
    assert [] + [s] == [s] && [s] + [t] == [s, t];
    assert Canon(false, [t], [s]) == [s, t];
  }

  lemma RenderTwo(s: string, t: string)
    ensures Render([s, t]) != "" && Render([s, t])[1..] == s + ("/" + t)
  {
    assert [s, t][1..] == [t] && [t][1..] == [];
    assert Render([t]) == "/" + t;
    assert Render([s, t]) == "/" + (s + ("/" + t));
  }

  lemma CanonicalOfTwo(s: string, t: string)
    requires s != "" && t != "" && '/' !in s && '/' !in t
    requires s != "." && t != "." && s != ".." && t != ".."
    ensures var p := s + ("/" + t); !Rooted(p) && Canonical(p) == [s, t]
  {
    var p := s + ("/" + t);
    SplitAt(s, t);
    assert Split(t) == [t];
    CanonOfTwo(s, t);
    assert p[0] == s[0] && s[0] in s;
  }

  lemma TwoSegments(p: string, s: string, t: string)
    requires p == s + "/" + t && s != "" && t != "" && '/' !in s && '/' !in t
    requires s != "." && t != "." && s != ".." && t != ".."
    ensures Clean(p) == p
  {
    assert p == s + ("/" + t);
    CanonicalOfTwo(s, t);
    RenderTwo(s, t);
  }
}
