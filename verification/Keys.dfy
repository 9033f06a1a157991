/**
  The traversal files cluster agents, remote agents and tools under plain
  strings.  This module shows when those strings tell their owners apart.
 */
module Keys {
  import opened Api

  function KeyString(k: Key): string {
    k.namespace + "/" + k.name
  }

  predicate SlashFree(s: string) {
    '/' !in s
  }

  /** What the API server guarantees of the name of an existing agent (RFC 1123 labels and subdomains). */
  predicate ValidKey(k: Key) {
    k.namespace != "" && k.name != "" && SlashFree(k.namespace) && SlashFree(k.name)
  }

  function Lower(c: char): char {
    if 'A' <= c <= 'Z' then c - 'A' + 'a' else c
  }

  function LowerAll(s: string): (r: string)
    ensures |r| == |s|
    ensures forall i :: 0 <= i < |s| ==> r[i] == Lower(s[i])
  {
    seq(|s|, i requires 0 <= i < |s| => Lower(s[i]))
  }

  /** What stands before the path, the query and the fragment. */
  function Authority(s: string): string {
    if s == "" || s[0] in "/?#" then "" else [s[0]] + Authority(s[1..])
  }

  /** The host is what follows the last at sign of the authority. */
  predicate HasHost(s: string) {
    var authority := Authority(s);
    authority != "" && authority[|authority| - 1] != '@'
  }

  /** A URL with scheme http or https (in any case) and a host that is not empty. */
  predicate HttpUrl(u: string) {
    || (|u| > 7 && LowerAll(u[..7]) == "http://" && HasHost(u[7..]))
    || (|u| > 8 && LowerAll(u[..8]) == "https://" && HasHost(u[8..]))
  }

  /** What follows the authority: nothing, or a path, query or fragment. */
  predicate IsRest(s: string) {
    s == "" || s[0] in "/?#"
  }

  lemma {:induction false} AuthorityStandsFirst(s: string)
    ensures |Authority(s)| <= |s| && s[..|Authority(s)|] == Authority(s) && IsRest(s[|Authority(s)|..])
    ensures forall c <- Authority(s) :: c !in "/?#"
  {
    if s != "" && s[0] !in "/?#" {
      AuthorityStandsFirst(s[1..]);
      assert s == [s[0]] + s[1..];
    }
  }

  lemma {:induction false} AuthorityIsAllBeforeTheRest(authority: string, rest: string)
    requires (forall c <- authority :: c !in "/?#") && IsRest(rest)
    ensures Authority(authority + rest) == authority
  {
    if authority == "" {
      assert authority + rest == rest;
    } else {
      assert authority[0] in authority;
      assert (authority + rest)[1..] == authority[1..] + rest;
      AuthorityIsAllBeforeTheRest(authority[1..], rest);
    }
  }

  /** The host is what follows the last at sign, or all of it. */
  predicate IsHost(authority: string, user: string, host: string) {
    authority == user + host && '@' !in host && (user == "" || user[|user| - 1] == '@')
  }

  lemma {:induction false} HostStandsLast(authority: string) returns (user: string, host: string)
    ensures IsHost(authority, user, host)
  {
    if authority == "" || authority[|authority| - 1] == '@' {
      user, host := authority, "";
    } else {
      var n := |authority| - 1;
      user, host := HostStandsLast(authority[..n]);
      host := host + [authority[n]];
    }
  }

  /** A URL by its parts: scheme http or https in any case, authority with a host, and the rest. */
  ghost predicate HasHttpParts(u: string, scheme: string, user: string, host: string, rest: string) {
    && u == scheme + "://" + (user + host) + rest
    && LowerAll(scheme) in {"http", "https"}
    && (forall c <- user + host :: c !in "/?#") && IsRest(rest)
    && host != "" && IsHost(user + host, user, host)
  }

  lemma HostIsNotEmpty(authority: string, user: string, host: string)
    requires IsHost(authority, user, host)
    ensures host != "" <==> authority != "" && authority[|authority| - 1] != '@'
  {
    if host != "" {
      assert authority[|authority| - 1] == host[|host| - 1] && host[|host| - 1] in host;
    }
  }

  lemma PartsOfHttpUrl(u: string, scheme: string, s: string)
    requires u == scheme + "://" + s && LowerAll(scheme) in {"http", "https"} && HasHost(s)
    ensures exists user, host, rest :: HasHttpParts(u, scheme, user, host, rest)
  {
    AuthorityStandsFirst(s);
    var authority := Authority(s);
    var user, host := HostStandsLast(authority);
    HostIsNotEmpty(authority, user, host);
    var rest := s[|authority|..];
    assert s == authority + rest;
    assert u == scheme + "://" + (user + host) + rest;
    assert HasHttpParts(u, scheme, user, host, rest);
  }

  lemma LowerParts(scheme: string, s: string)
    ensures LowerAll(scheme + "://" + s)[..|scheme| + 3] == LowerAll(scheme) + "://"
  {
  }

  /** The URLs accepted are exactly those made of such parts. */
  lemma HttpUrlIffParts(u: string)
    ensures HttpUrl(u) <==> exists scheme, user, host, rest :: HasHttpParts(u, scheme, user, host, rest)
  {
    if HttpUrl(u) {
      var n := if |u| > 7 && LowerAll(u[..7]) == "http://" && HasHost(u[7..]) then 4 else 5;
      var scheme := u[..n];
      SchemeOf(u, n);
      PartsOfHttpUrl(u, scheme, u[n + 3..]);
    }
    if scheme, user, host, rest :| HasHttpParts(u, scheme, user, host, rest) {
      PartsAreHttpUrl(u, scheme, user, host, rest);
    }
  }

  lemma SchemeOf(u: string, n: nat)
    requires n + 3 < |u| && LowerAll(u[..n + 3]) == (if n == 4 then "http" else "https") + "://" && (n == 4 || n == 5)
    ensures u == u[..n] + "://" + u[n + 3..] && LowerAll(u[..n]) == if n == 4 then "http" else "https"
  {
    var lower := LowerAll(u[..n + 3]);
    assert forall i :: 0 <= i < n + 3 ==> lower[i] == Lower(u[i]);
    assert lower[n] == ':' && lower[n + 1] == '/' && lower[n + 2] == '/';
    assert u[n..n + 3] == "://";
    assert u == u[..n] + u[n..n + 3] + u[n + 3..];
    assert LowerAll(u[..n]) == lower[..n];
  }

  lemma PartsAreHttpUrl(u: string, scheme: string, user: string, host: string, rest: string)
    requires HasHttpParts(u, scheme, user, host, rest)
    ensures HttpUrl(u)
  {
    var s, n := (user + host) + rest, |scheme|;
    assert u == scheme + "://" + s;
    AuthorityIsAllBeforeTheRest(user + host, rest);
    HostIsNotEmpty(user + host, user, host);
    LowerParts(scheme, s);
    assert u[n + 3..] == s;
    assert LowerAll(u[..n + 3]) == LowerAll(u)[..n + 3];
    assert |LowerAll(scheme)| == n;
  }

  /** The separator is the first slash when the namespace has none. */
  lemma FirstSlash(k: Key)
    requires SlashFree(k.namespace)
    ensures KeyString(k)[|k.namespace|] == '/'
    ensures forall p :: 0 <= p < |k.namespace| ==> KeyString(k)[p] != '/'
    ensures KeyString(k)[..|k.namespace|] == k.namespace
    ensures KeyString(k)[|k.namespace| + 1..] == k.name
  {
    assert forall p :: 0 <= p < |k.namespace| ==> KeyString(k)[p] == k.namespace[p];
  }

  /** The separator is the only slash in the string of an existing agent. */
  lemma OnlySlash(k: Key)
    requires ValidKey(k)
    ensures forall p :: 0 <= p < |KeyString(k)| && KeyString(k)[p] == '/' ==> p == |k.namespace|
  {
    forall p | 0 <= p < |KeyString(k)| && p != |k.namespace|
      ensures KeyString(k)[p] != '/'
    {
      assert KeyString(k)[p] == if p < |k.namespace| then k.namespace[p] else k.name[p - |k.namespace| - 1];
    }
  }

  /** Two keys with slash-free namespaces never share a string, whatever their names hold. */
  lemma KeyStringInjective(a: Key, b: Key)
    requires SlashFree(a.namespace) && SlashFree(b.namespace)
    requires KeyString(a) == KeyString(b)
    ensures a == b
  {
    FirstSlash(a);
    FirstSlash(b);
    assert |a.namespace| == |b.namespace|;
  }

  /** The key of an existing agent is never the string of another reference, however malformed that one is. */
  lemma ValidKeyStringUnique(valid: Key, other: Key)
    requires ValidKey(valid)
    requires KeyString(valid) == KeyString(other)
    ensures valid == other
  {
    OnlySlash(valid);
    assert KeyString(other)[|other.namespace|] == '/';
    assert KeyString(other)[..|other.namespace|] == other.namespace;
    assert KeyString(other)[|other.namespace| + 1..] == other.name;
    FirstSlash(valid);
  }

  lemma HttpUrlHasTwoSlashes(u: string) returns (n: nat)
    requires HttpUrl(u)
    ensures n + 1 < |u| && u[n] == '/' && u[n + 1] == '/'
  {
    if |u| > 7 && LowerAll(u[..7]) == "http://" {
      assert Lower(u[..7][5]) == '/' && Lower(u[..7][6]) == '/';
      n := 5;
    } else {
      assert Lower(u[..8][6]) == '/' && Lower(u[..8][7]) == '/';
      n := 6;
    }
  }

  /** A remote agent's URL is never the key of an existing cluster agent. */
  lemma UrlIsNotAKey(u: string, k: Key)
    requires HttpUrl(u) && ValidKey(k)
    ensures u != KeyString(k)
  {
    var n := HttpUrlHasTwoSlashes(u);
    OnlySlash(k);
  }

  /** The three kinds of tool upstream, as the traversal identifies them. */
  datatype ToolId = Route(key: Key) | Server(key: Key) | External(url: string)

  function ToolKeyString(t: ToolId): string {
    match t
    case Route(k) => "toolroute:" + KeyString(k)
    case Server(k) => "toolserver:" + KeyString(k)
    case External(u) => "external:" + u
  }

  predicate WellNamedTool(t: ToolId) {
    match t
    case External(_) => true
    case Route(k) => SlashFree(k.namespace)
    case Server(k) => SlashFree(k.namespace)
  }

  /** The three prefixes keep the kinds apart, and within a kind the rest of the string is faithful. */
  lemma ToolKeyStringInjective(a: ToolId, b: ToolId)
    requires WellNamedTool(a) && WellNamedTool(b)
    requires ToolKeyString(a) == ToolKeyString(b)
    ensures a == b
  {
    var s, t := ToolKeyString(a), ToolKeyString(b);
    assert s[4] == (match a case Route(_) => 'r' case Server(_) => 's' case External(_) => 'r');
    assert t[4] == (match b case Route(_) => 'r' case Server(_) => 's' case External(_) => 'r');
    assert s[0] == (if a.External? then 'e' else 't');
    assert t[0] == (if b.External? then 'e' else 't');
    match a {
      case Route(k) =>
        assert s[10..] == KeyString(k) && t[10..] == KeyString(b.key);
        KeyStringInjective(k, b.key);
      case Server(k) =>
        assert s[11..] == KeyString(k) && t[11..] == KeyString(b.key);
        KeyStringInjective(k, b.key);
      case External(u) =>
        assert s[9..] == u && t[9..] == b.url;
    }
  }
}
