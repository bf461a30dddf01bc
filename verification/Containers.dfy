/** Where tinylb sends the traffic of a backend: src/http_proxy.rs and src/proxy.rs connect to the authority of
    its URL, whatever the scheme, and the host part names the container. */
module Containers {
  import opened Prelude
  import opened Hosts

  /** The longest prefix without the given characters. */
  function Until(s: string, stops: set<char>): (r: string)
    ensures r <= s && (forall c :: c in r ==> c !in stops) && (r == s || s[|r|] in stops)
  {
    if s == "" || s[0] in stops then "" else [s[0]] + Until(s[1..], stops)
  }

  /** The authority of a URL: what is between the scheme and the path, or a URL that is nothing else. */
  function Authority(url: string): Option<string> {
    var scheme := Until(url, {':', '/', '?', '#'});
    if scheme != "" && "://" <= url[|scheme|..] then Some(Until(url[|scheme| + 3..], {'/', '?', '#'}))
    else if Until(url, {'/', '?', '#'}) == url then Some(url)
    else None
  }

  /** Without the user information before an '@'. */
  function WithoutUser(authority: string): string {
    var user := Until(authority, {'@'});
    if user == authority then authority else WithoutUser(authority[|user| + 1..])
  }

  /** Without the port; an IPv6 address stands in brackets. */
  function WithoutPort(rest: string): string {
    if rest != "" && rest[0] == '[' then
      var inner := Until(rest, {']'});
      if inner == rest then rest else inner + "]"
    else Until(rest, {':'})
  }

  /** The host part, in lower case; host names do not distinguish case. */
  function HostOf(url: string): Option<string> {
    var authority := Authority(url);
    if authority.None? then None
    else
      var host := WithoutPort(WithoutUser(authority.value));
      if host == "" then None else Some(Lower(host))
  }

  /** Requests to a backend with this URL reach the container of the service. */
  predicate Reaches(url: string, service: string) { HostOf(url) == Some(Lower(service)) }

  lemma {:induction false} UntilIs(s: string, stops: set<char>, r: string)
    requires r <= s && (forall c :: c in r ==> c !in stops) && (r == s || s[|r|] in stops)
    ensures Until(s, stops) == r
  {
    if r != "" {
      assert r[0] in r && s[0] == r[0];
      assert forall c :: c in r[1..] ==> c in r;
      UntilIs(s[1..], stops, r[1..]);
    }
  }

  /** None of the characters that end an authority. */
  predicate Inside(s: string) { forall c :: c in s ==> c !in {'/', '?', '#'} }

  /** A name or an IPv4 address. */
  predicate NamedHost(host: string) { host != "" && host[0] != '[' && forall c :: c in host ==> c !in {':', '/', '?', '#', '@'} }

  /** An IPv6 address in brackets. */
  predicate BracketedHost(host: string) {
    |host| > 1 && host[0] == '[' && host[|host| - 1] == ']' && ']' !in host[..|host| - 1]
    && forall c :: c in host ==> c !in {'/', '?', '#', '@'}
  }

  predicate IsHost(host: string) { NamedHost(host) || BracketedHost(host) }

  predicate IsScheme(scheme: string) { scheme != "" && forall c :: c in scheme ==> c !in {':', '/', '?', '#'} }

  predicate IsUser(user: string) { user == "" || (user[|user| - 1] == '@' && Inside(user)) }

  predicate IsPort(port: string) { port == "" || (port[0] == ':' && forall c :: c in port ==> c !in {'/', '?', '#', '@'}) }

  lemma {:induction false} UserRemoved(user: string, rest: string)
    requires user == "" || user[|user| - 1] == '@'
    requires forall c :: c in rest ==> c != '@'
    ensures WithoutUser(user + rest) == rest
    decreases |user|
  {
    hide Until;
    if user == "" {
      UntilIs(rest, {'@'}, rest);
      assert user + rest == rest;
    } else {
      var first := Until(user, {'@'});
      UntilBefore(user, rest, first);
      assert (user + rest)[|first| + 1..] == user[|first| + 1..] + rest;
      UserRemoved(user[|first| + 1..], rest);
    }
  }

  lemma UntilBefore(user: string, rest: string, first: string)
    requires user != "" && user[|user| - 1] == '@' && first == Until(user, {'@'})
    ensures |first| < |user| && Until(user + rest, {'@'}) == first && first != user + rest
  {
    hide Until;
    assert user[|user| - 1] in user && first != user;
    UntilIs(user + rest, {'@'}, first);
  }

  lemma PortRemoved(host: string, port: string)
    requires IsHost(host) && IsPort(port)
    ensures WithoutPort(host + port) == host
  {
    var rest := host + port;
    hide Until;
    assert rest[0] == host[0];
    if NamedHost(host) {
      UntilIs(rest, {':'}, host);
    } else {
      var inner := host[..|host| - 1];
      assert rest[|inner|] == ']';
      UntilIs(rest, {']'}, inner);
      assert inner + "]" == host;
    }
  }

  lemma AuthorityAfterScheme(scheme: string, rest: string)
    requires IsScheme(scheme)
    ensures Authority(scheme + ("://" + rest)) == Some(Until(rest, {'/', '?', '#'}))
  {
    var url := scheme + ("://" + rest);
    UntilIs(url, {':', '/', '?', '#'}, scheme);
    assert url[|scheme|..] == "://" + rest && url[|scheme| + 3..] == rest;
    hide Until;
  }

  lemma HostOfParts(url: string, user: string, host: string, port: string)
    requires IsUser(user) && IsHost(host) && IsPort(port) && Authority(url) == Some(user + (host + port))
    ensures HostOf(url) == Some(Lower(host))
  {
    hide Authority, Until, Lower, WithoutUser, WithoutPort;
    UserRemoved(user, host + port);
    PortRemoved(host, port);
  }

  /** For every scheme, with or without user information, port and path, the container is the host between them. */
  lemma HostOfUrl(scheme: string, user: string, host: string, port: string, path: string)
    requires IsScheme(scheme) && IsUser(user) && IsHost(host) && IsPort(port) && (path == "" || path[0] in {'/', '?', '#'})
    ensures HostOf(scheme + ("://" + (user + (host + port) + path))) == Some(Lower(host))
  {
    hide HostOf, Lower, Authority, Until;
    var authority := user + (host + port);
    UntilIs(authority + path, {'/', '?', '#'}, authority);
    AuthorityAfterScheme(scheme, authority + path);
    HostOfParts(scheme + ("://" + (authority + path)), user, host, port);
  }

  /** Also without a scheme, as in a bare authority. */
  lemma HostOfAuthority(user: string, host: string, port: string)
    requires IsUser(user) && IsHost(host) && IsPort(port)
    ensures HostOf(user + (host + port)) == Some(Lower(host))
  {
    var url := user + (host + port);
    hide Until, HostOf, Lower;
    assert Inside(url);
    UntilIs(url, {'/', '?', '#'}, url);
    var scheme := Until(url, {':', '/', '?', '#'});
    assert |url| > |scheme| + 1 ==> url[|scheme|..][1] in url;
    HostOfParts(url, user, host, port);
  }
}
