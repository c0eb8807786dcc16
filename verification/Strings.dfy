/** The string operations of Go's `strings` and `net` packages that the operator relies on. */
module Strings {
  import opened Basics

  predicate HasPrefix(s: string, p: string) {
    |p| <= |s| && s[..|p|] == p
  }

  predicate HasSuffix(s: string, p: string) {
    |p| <= |s| && s[|s| - |p|..] == p
  }

  predicate Contains(s: string, sub: string) {
    HasPrefix(s, sub) || (s != "" && Contains(s[1..], sub))
  }

  function LowerChar(c: char): char {
    if 'A' <= c <= 'Z' then (c as int + 32) as char else c
  }

  /** Lower case of ASCII letters; other characters are left alone. */
  function Lower(s: string): (r: string)
    ensures |r| == |s|
    ensures forall i :: 0 <= i < |s| ==> r[i] == LowerChar(s[i])
  {
    seq(|s|, i requires 0 <= i < |s| => LowerChar(s[i]))
  }

  lemma LowerIdempotent(s: string)
    ensures Lower(Lower(s)) == Lower(s)
  {
    assert forall i :: 0 <= i < |s| ==> Lower(Lower(s))[i] == Lower(s)[i];
  }

  /** Index of the first occurrence of a character, or the length when there is none. */
  function IndexOf(s: string, c: char): (i: nat)
    ensures i <= |s|
    ensures i < |s| ==> s[i] == c
    ensures forall j :: 0 <= j < i ==> s[j] != c
  {
    if s == "" then 0 else if s[0] == c then 0 else 1 + IndexOf(s[1..], c)
  }

  /** One more than the index of the last occurrence of a character, or zero. */
  function AfterLast(s: string, c: char): (i: nat)
    ensures i <= |s|
    ensures i > 0 ==> s[i - 1] == c
    ensures forall j :: i <= j < |s| ==> s[j] != c
  {
    if s == "" then 0 else if s[|s| - 1] == c then |s| else AfterLast(s[..|s| - 1], c)
  }

  /** `net.SplitHostPort`: host and port of "host:port" or "[host]:port", None on an error. */
  function SplitHostPort(s: string): Option<(string, string)> {
    var port := AfterLast(s, ':');
    if port == 0 then None
    else if s[0] == '[' then
      var end := IndexOf(s, ']');
      if end == |s| || end + 1 != port - 1 then None
      else if '[' in s[1..] || ']' in s[end + 1..] then None
      else Some((s[1..end], s[port..]))
    else
      var host := s[..port - 1];
      if ':' in host || '[' in s || ']' in s then None
      else Some((host, s[port..]))
  }

  /** Joins a host and a port the way `net.JoinHostPort` does. */
  function JoinHostPort(host: string, port: string): string {
    if ':' in host then "[" + host + "]:" + port else host + ":" + port
  }

  predicate Bracketless(s: string) {
    '[' !in s && ']' !in s
  }

  lemma SplitPlain(host: string, port: string)
    requires Bracketless(host) && Bracketless(port) && ':' !in port && ':' !in host
    ensures SplitHostPort(host + ":" + port) == Some((host, port))
  {
    var s := host + ":" + port;
    assert s == host + (":" + port);
    AfterLastColon(host, port);
    assert s[..|host|] == host;
    assert '[' !in s && ']' !in s;
    assert s[0] in s;
  }

  lemma BracketedEnd(host: string, rest: string)
    requires Bracketless(host) && Bracketless(rest)
    ensures var s := "[" + host + "]" + rest;
            IndexOf(s, ']') == |host| + 1 && s[1..|host| + 1] == host && s[|host| + 2..] == rest && '[' !in s[1..] && ']' !in s[|host| + 2..]
  {
    var s := "[" + host + "]" + rest;
    assert s[|host| + 1] == ']' && forall j :: 0 < j <= |host| ==> s[j] == host[j - 1];
    assert s[1..] == host + "]" + rest;
  }

  lemma AfterLastColon(head: string, port: string)
    requires ':' !in port
    ensures var s := head + (":" + port); AfterLast(s, ':') == |head| + 1 && s[|head| + 1..] == port
  {
    var s := head + (":" + port);
    assert s[|head|] == ':' && s[|head| + 1..] == port;
    forall j | |head| < j < |s| ensures s[j] != ':' {
      assert s[j] == port[j - |head| - 1];
    }
  }

  lemma SplitBracketed(host: string, port: string)
    requires Bracketless(host) && Bracketless(port) && ':' !in port
    ensures SplitHostPort("[" + host + "]:" + port) == Some((host, port))
  {
    var head := "[" + host + "]";
    BracketedEnd(host, ":" + port);
    AfterLastColon(head, port);
    assert "[" + host + "]:" + port == head + (":" + port);
  }

  /** The two forms a host with a port may have; everything else is an error. */
  predicate HostPort(s: string, host: string, port: string) {
    && Bracketless(host) && Bracketless(port) && ':' !in port
    && ((s == host + ":" + port && ':' !in host) || s == "[" + host + "]:" + port)
  }

  lemma BracketedParts(s: string, host: string, port: string)
    requires s != "" && s[0] == '[' && SplitHostPort(s) == Some((host, port))
    ensures HostPort(s, host, port)
  {
    var i, end := AfterLast(s, ':'), IndexOf(s, ']');
    assert s == "[" + s[1..end] + "]:" + s[i..];
    assert forall c | c in s[1..end] :: c in s[1..];
    assert forall c | c in s[i..] :: c in s[1..] && c in s[end + 1..];
  }

  lemma PlainParts(s: string, host: string, port: string)
    requires s != "" && s[0] != '[' && SplitHostPort(s) == Some((host, port))
    ensures HostPort(s, host, port)
  {
    var i := AfterLast(s, ':');
    assert s == s[..i - 1] + ":" + s[i..];
    assert forall c | c in s[..i - 1] || c in s[i..] :: c in s;
  }

  lemma SplitIff(s: string, host: string, port: string)
    ensures SplitHostPort(s) == Some((host, port)) <==> HostPort(s, host, port)
  {
    if HostPort(s, host, port) {
      if s == host + ":" + port && ':' !in host {
        SplitPlain(host, port);
      } else {
        SplitBracketed(host, port);
      }
    } else if SplitHostPort(s) == Some((host, port)) {
      if s[0] == '[' {
        BracketedParts(s, host, port);
      } else {
        PlainParts(s, host, port);
      }
    }
  }

  /** Splitting what was joined gives the host and port back. */
  lemma SplitJoined(host: string, port: string)
    requires Bracketless(host) && Bracketless(port) && ':' !in port
    ensures SplitHostPort(JoinHostPort(host, port)) == Some((host, port))
  {
    if ':' in host {
      SplitBracketed(host, port);
    } else {
      SplitPlain(host, port);
    }
  }

  lemma LowerConcat(a: string, b: string)
    ensures Lower(a + b) == Lower(a) + Lower(b)
  {
  }

  lemma LowerHas(s: string, c: char)
    requires !('A' <= c <= 'Z') && !('a' <= c <= 'z')
    ensures c in Lower(s) <==> c in s
  {
    forall i | 0 <= i < |s| ensures (Lower(s)[i] == c) == (s[i] == c) {
    }
    if c in s {
      var i :| 0 <= i < |s| && s[i] == c;
      assert Lower(s)[i] == c;
    }
  }

  lemma LowerOne(c: char)
    ensures Lower([c]) == [LowerChar(c)]
  {
  }

  lemma LowerJoined(host: string, port: string)
    ensures Lower(JoinHostPort(host, port)) == JoinHostPort(Lower(host), Lower(port))
  {
    LowerHas(host, ':');
    LowerOne(':');
    if ':' in host {
      LowerConcat("[" + host + "]:", port);
      LowerConcat("[" + host, "]:");
      LowerConcat("[", host);
      LowerOne('[');
      assert Lower("]:") == "]:";
    } else {
      LowerConcat(host + ":", port);
      LowerConcat(host, ":");
    }
  }

  lemma DotFirst(s: string)
    ensures HasPrefix(s, ".") <==> s != "" && s[0] == '.'
  {
    assert s != "" ==> s[..1] == [s[0]];
  }

  /** Length in bytes, as Go's `len` counts it: the text is UTF-8. */
  function Bytes(s: string): (n: nat)
    ensures n == 0 <==> s == ""
  {
    if s == "" then 0
    else
      var c := s[0] as int;
      (if c < 0x80 then 1 else if c < 0x800 then 2 else if c < 0x1_0000 then 3 else 4) + Bytes(s[1..])
  }

  /** The lengths of UTF-8: one to four bytes a character, and lengths add up. */
  lemma {:induction false} BytesAddUp(s: string, t: string)
    ensures Bytes(s + t) == Bytes(s) + Bytes(t)
    ensures forall c: char :: Bytes([c]) == if c <= '\U{7F}' then 1 else if c <= '\U{7FF}' then 2 else if c <= '\U{FFFF}' then 3 else 4
    decreases |s|
  {
    forall c: char ensures Bytes([c]) == if c <= '\U{7F}' then 1 else if c <= '\U{7FF}' then 2 else if c <= '\U{FFFF}' then 3 else 4 {
      assert [c][1..] == "";
    }
    if s == "" {
      assert s + t == t;
    } else {
      assert (s + t)[1..] == s[1..] + t;
      BytesAddUp(s[1..], t);
    }
  }

  /** Byte-wise order of Go strings, which for UTF-8 is that of the characters. */
  predicate Less(a: string, b: string) {
    if b == "" then false
    else if a == "" then true
    else if a[0] != b[0] then a[0] < b[0]
    else Less(a[1..], b[1..])
  }

  lemma {:induction false} LessTotal(a: string, b: string)
    ensures !(Less(a, b) && Less(b, a))
    ensures !Less(a, b) && !Less(b, a) <==> a == b
  {
    if a != "" && b != "" && a[0] == b[0] {
      LessTotal(a[1..], b[1..]);
      assert a == [a[0]] + a[1..] && b == [b[0]] + b[1..];
    }
  }

  lemma {:induction false} LessTransitive(a: string, b: string, c: string)
    requires Less(a, b) && Less(b, c)
    ensures Less(a, c)
  {
    if a != "" && a[0] == b[0] && b[0] == c[0] {
      LessTransitive(a[1..], b[1..], c[1..]);
    }
  }
}
