/** examples/rolling-update/rolling_update_lib.py: the targets are the backends of one route, by place, and
    only that route's drain flags are looked at and written. */
module RollingRestart {
  import opened Prelude
  import opened Registry
  import opened Rolling
  import opened RollingRuns
  import opened RollingUpdate
  import opened Containers

  predicate Listed(c: Config, route: nat, i: nat) { route < |c| && i < |c[route].backends| }

  predicate FlagSet(c: Config, route: nat, i: nat) { Listed(c, route, i) && c[route].backends[i].drain }

  /** config["routes"][route]["backends"][i]["drain"] = drain. */
  function SetFlag(c: Config, route: nat, i: nat, drain: bool): Config {
    if Listed(c, route, i) then
      c[route := c[route].(backends := c[route].backends[i := c[route].backends[i].(drain := drain)])]
    else c
  }

  function ByPlace(route: nat): Rules<nat> {
    Rules((c: Config, i: nat) => Listed(c, route, i),
          (c: Config, i: nat) => FlagSet(c, route, i),
          (c: Config, i: nat, drain: bool) => SetFlag(c, route, i, drain))
  }

  lemma ByPlaceIsLawful(route: nat)
    ensures Lawful(ByPlace(route))
  {
  }

  /** get_backends: the first route with the host. */
  function FirstRoute(c: Config, host: string): (r: Option<nat>)
    ensures r.Some? ==> r.value < |c| && c[r.value].host == host && forall i :: 0 <= i < r.value ==> c[i].host != host
    ensures r.None? ==> forall i :: 0 <= i < |c| ==> c[i].host != host
  {
    if c == [] then None
    else if c[0].host == host then Some(0)
    else
      var r := FirstRoute(c[1..], host);
      if r.Some? then Some(r.value + 1) else None
  }

  function Places(n: nat): (r: seq<nat>)
    ensures |r| == n && forall i :: 0 <= i < n ==> r[i] == i
  {
    seq(n, i => i)
  }

  lemma PlacesStart(c: Config, route: nat)
    requires route < |c|
    ensures Started(ByPlace(route), c, Places(|c[route].backends|))
  {
    ByPlaceIsLawful(route);
    hide Lawful;
  }

  /** url_to_service of the library: the pattern https?://([^:]+):\d+ at the start of the URL. */
  function ServiceWithPort(url: string): Option<string> {
    var rest := AfterScheme(url);
    if rest.None? then None
    else
      var name := Until(rest.value, {':'});
      if name != "" && |name| + 1 < |rest.value| && IsDigit(rest.value[|name| + 1]) then Some(name) else None
  }

  /** Here the service is what stands between the scheme and the first ':', and a digit has to follow that. */
  lemma ServiceWithPortIs(scheme: string, service: string, digit: char, rest: string)
    requires IsHttp(scheme) && service != "" && ':' !in service && '0' <= digit <= '9'
    ensures ServiceWithPort(scheme + (service + [':', digit] + rest)) == Some(service)
  {
    var after := service + [':', digit] + rest;
    AfterSchemeIs(scheme, after);
    UntilIs(after, {':'}, service);
    hide AfterScheme, Until;
  }

  lemma ServiceWithPortMeans(url: string) returns (scheme: string, digit: char, rest: string)
    requires ServiceWithPort(url).Some?
    ensures IsHttp(scheme) && '0' <= digit <= '9'
    ensures var service := ServiceWithPort(url).value;
      url == scheme + (service + [':', digit] + rest) && service != "" && ':' !in service
  {
    var after;
    scheme, after := SchemeThen(url);
    hide AfterScheme, Until;
    var service := ServiceWithPort(url).value;
    digit, rest := after[|service| + 1], after[|service| + 2..];
    assert after[..|service|] == service && after[|service|] == ':';
    assert after == service + [':', digit] + rest;
  }

  // ------------------------------------------------------- what a run leaves alone

  function ClearPlaces(bs: seq<BackendConfig>, gone: seq<nat>): (r: seq<BackendConfig>)
    ensures |r| == |bs| && forall j :: 0 <= j < |bs| ==> r[j] == bs[j].(drain := bs[j].drain && j !in gone)
  {
    seq(|bs|, j requires 0 <= j < |bs| => bs[j].(drain := bs[j].drain && j !in gone))
  }

  function ClearedAt(c: Config, route: nat, gone: seq<nat>): Config
    requires route < |c|
  {
    c[route := c[route].(backends := ClearPlaces(c[route].backends, gone))]
  }

  lemma ClearedAtOneMore(c: Config, route: nat, gone: seq<nat>, i: nat)
    requires route < |c|
    ensures var f := ClearedAt(c, route, gone);
      SetFlag(Drained(ByPlace(route), f, i), route, i, false) == ClearedAt(c, route, gone + [i])
  {
    var f := ClearedAt(c, route, gone);
    var d := Drained(ByPlace(route), f, i);
    var t := SetFlag(d, route, i, false);
    assert forall j :: j in gone + [i] <==> j in gone || j == i;
    assert t[route].backends == ClearPlaces(c[route].backends, gone + [i]);
  }

  /** Along a run the file is the original with the drain flags cleared of those that are done. */
  lemma {:induction false} FileAfterIsClearedAt(c: Config, route: nat, order: seq<nat>)
    requires route < |c|
    ensures FileAfter(ByPlace(route), c, order) == ClearedAt(c, route, order)
  {
    hide SetFlag, Drained, ClearPlaces;
    if order == [] {
      NothingCleared(c, route);
    } else {
      var n := |order| - 1;
      FileAfterIsClearedAt(c, route, order[..n]);
      ClearedAtOneMore(c, route, order[..n], order[n]);
      assert order == order[..n] + [order[n]];
      hide ClearedAt;
    }
  }

  lemma NothingCleared(c: Config, route: nat)
    requires route < |c|
    ensures ClearedAt(c, route, []) == c
  {
    assert ClearPlaces(c[route].backends, []) == c[route].backends;
  }

  /** A completed restart restarts each backend of the route once and leaves, in the file and in tinylb, the
      original config with that route's drain flags cleared. */
  lemma CompletedRestart(loaded: Config, c: Config, route: nat, polls: set<nat>)
    requires route < |c| && c[route].backends != []
    ensures var keys := Places(|c[route].backends|);
      var t := FullRun(ByPlace(route), c, keys);
      && multiset(Restarts(t)) == multiset(keys)
      && FileAt(c, t) == LoadedAt(loaded, c, t, polls) == ClearedAt(c, route, keys)
  {
    hide *;
    var keys := Places(|c[route].backends|);
    PlacesStart(c, route);
    FullRunFinishes(ByPlace(route), loaded, c, keys, polls);
    StartedMeans(ByPlace(route), c, keys);
    var order := Order(ByPlace(route), c, keys);
    TraceEnds(ByPlace(route), c, order);
    FileAfterIsClearedAt(c, route, order);
    SameClearedAt(c, route, order, keys);
  }

  lemma SameClearedAt(c: Config, route: nat, a: seq<nat>, b: seq<nat>)
    requires route < |c| && forall x :: x in a <==> x in b
    ensures ClearedAt(c, route, a) == ClearedAt(c, route, b)
  {
    assert ClearPlaces(c[route].backends, a) == ClearPlaces(c[route].backends, b);
  }

  // ------------------------------------------------------- which restarts happen

  /** What the script restarts for a place of the route. */
  function ServiceAt(c: Config, route: nat, i: nat): Option<string> {
    if Listed(c, route, i) then ServiceWithPort(c[route].backends[i].url) else None
  }

  /** The places before the first one whose URL cannot be parsed. */
  function Parsed(c: Config, route: nat, order: seq<nat>): (r: seq<nat>)
    ensures r <= order && forall i :: i in r ==> ServiceAt(c, route, i).Some?
    ensures |r| < |order| ==> ServiceAt(c, route, order[|r|]).None?
  {
    if order == [] || ServiceAt(c, route, order[0]).None? then [] else [order[0]] + Parsed(c, route, order[1..])
  }

  /** The places that have their turn: a URL that cannot be parsed ends the run before its backend is touched. */
  function Turns(c: Config, route: nat): seq<nat>
    requires route < |c|
  {
    Parsed(c, route, Order(ByPlace(route), c, Places(|c[route].backends|)))
  }

  /** The run up to there. */
  function ReachedRun(c: Config, route: nat): seq<Effect<nat>>
    requires route < |c|
  {
    Trace(ByPlace(route), c, Turns(c, route))
  }

  lemma ReachedIsPrefix(c: Config, route: nat)
    requires route < |c|
    ensures ReachedRun(c, route) <= FullRun(ByPlace(route), c, Places(|c[route].backends|))
    ensures Unique(Turns(c, route)) && forall i :: i in Turns(c, route) ==> Listed(c, route, i) && ServiceAt(c, route, i).Some?
  {
    hide Unique, Trace, Order, ServiceWithPort;
    var keys := Places(|c[route].backends|);
    StartedMeans(ByPlace(route), c, keys);
    PlacesStart(c, route);
    var order := Order(ByPlace(route), c, keys);
    assert Turns(c, route) == order[..|Turns(c, route)|];
    TracePrefix(ByPlace(route), c, order, |Turns(c, route)|);
    PrefixUnique(order, |Turns(c, route)|);
  }

  lemma TurnsAreAll(c: Config, route: nat)
    requires route < |c|
    ensures |Turns(c, route)| <= |c[route].backends|
    ensures |Turns(c, route)| == |c[route].backends|
      ==> ReachedRun(c, route) == FullRun(ByPlace(route), c, Places(|c[route].backends|))
  {
    hide Trace, Order;
    StartedMeans(ByPlace(route), c, Places(|c[route].backends|));
    var order := Order(ByPlace(route), c, Places(|c[route].backends|));
    assert Turns(c, route) == order[..|Turns(c, route)|] && order[..|order|] == order;
  }

  lemma PrefixUnique(s: seq<nat>, n: nat)
    requires Unique(s) && n <= |s|
    ensures Unique(s[..n])
  {
  }

  // ------------------------------------------- when no traffic goes to the service

  ghost predicate QuietFor(c: Config, route: nat, f: Config, k: nat) {
    ServiceAt(c, route, k).Some? && ServiceQuiet(f, ServiceAt(c, route, k).value)
  }

  ghost function QuietRule(c: Config, route: nat): (Config, nat) -> bool { (f: Config, k: nat) => QuietFor(c, route, f, k) }

  /** A service is restarted only while the file has all backends drained that reach it. */
  ghost predicate RestartsQuiet(c: Config, route: nat)
    requires route < |c|
  {
    FileHoldsAtRestarts(QuietRule(c, route), c, ReachedRun(c, route))
  }

  /** No traffic is sent to a service from its restart until it is healthy, as the script's messages say: what
      counts is the config that tinylb has loaded. */
  ghost predicate RouteTrafficQuiet(loaded: Config, c: Config, route: nat, polls: set<nat>)
    requires route < |c|
  {
    HoldsAtRestarts(QuietRule(c, route), loaded, c, ReachedRun(c, route), polls)
  }

  /** A backend anywhere that reaches the service of place i is that place, or is drained from the start and,
      if it is in the route, has its turn later, place i being drained from the start as well. */
  predicate Tolerable(c: Config, route: nat, i: nat, a: nat, b: nat)
    requires Listed(c, a, b) && ServiceAt(c, route, i).Some?
  {
    Reaches(c[a].backends[b].url, ServiceAt(c, route, i).value) ==>
      (a == route && b == i) || (c[a].backends[b].drain && (a != route || (FlagSet(c, route, i) && i < b)))
  }

  ghost predicate OnlyAt(c: Config, route: nat, i: nat) {
    ServiceAt(c, route, i).Some? && forall a: nat, b: nat :: Listed(c, a, b) ==> Tolerable(c, route, i, a, b)
  }

  ghost predicate OnlyHere(c: Config, route: nat)
    requires route < |c|
  {
    forall i :: i in Turns(c, route) ==> OnlyAt(c, route, i)
  }

  /** A run changes nothing but drain flags of the route. */
  ghost predicate OnlyFlags(c: Config, route: nat, f: Config) {
    && |f| == |c| && route < |c| && (forall a :: 0 <= a < |c| && a != route ==> f[a] == c[a])
    && |f[route].backends| == |c[route].backends|
    && (forall b :: 0 <= b < |c[route].backends| ==> f[route].backends[b].url == c[route].backends[b].url)
  }

  ghost function KeepsAllButFlags(c: Config, route: nat): Config -> bool { (f: Config) => OnlyFlags(c, route, f) }

  lemma MarkOnlyFlags(c: Config, route: nat)
    ensures MarkKeeps(ByPlace(route), KeepsAllButFlags(c, route))
  {
  }

  lemma RestartOnlyFlags(c: Config, route: nat, i: nat)
    requires route < |c|
    requires var t := FullRun(ByPlace(route), c, Places(|c[route].backends|)); i < |t| && t[i].Restart?
    ensures var t := FullRun(ByPlace(route), c, Places(|c[route].backends|));
      OnlyFlags(c, route, FileAt(c, t[..i])) && Listed(c, route, t[i].key)
  {
    hide FileAt, Trace, Order, Started, Unique, Before;
    var keys := Places(|c[route].backends|);
    var t := FullRun(ByPlace(route), c, keys);
    MarkOnlyFlags(c, route);
    TraceKeeps(ByPlace(route), KeepsAllButFlags(c, route), c, Order(ByPlace(route), c, keys));
    FileAtKeeps(KeepsAllButFlags(c, route), c, t[..i]);
    PlacesStart(c, route);
    RestartedWhileDrained(ByPlace(route), c, keys, i);
    PlaceListed(c, route, t[i].key);
  }

  lemma PlaceListed(c: Config, route: nat, k: nat)
    requires route < |c|
    ensures k in Places(|c[route].backends|) <==> Listed(c, route, k)
  {
    assert Listed(c, route, k) ==> Places(|c[route].backends|)[k] == k;
  }

  lemma PlacesBefore(n: nat, i: nat, j: nat)
    requires i < n && j < n
    ensures Before(Places(n), i, j) <==> i < j
  {
    assert Places(n)[i] == i && Places(n)[j] == j;
  }

  /** Which flags of the route are set at a restart. */
  lemma FlagsAtRestart(c: Config, route: nat, i: nat, b: nat)
    requires route < |c| && b < |c[route].backends|
    requires var t := FullRun(ByPlace(route), c, Places(|c[route].backends|)); i < |t| && t[i].Restart?
    ensures var t := FullRun(ByPlace(route), c, Places(|c[route].backends|));
      FlagSet(FileAt(c, t[..i]), route, b)
      <==> b == t[i].key || (FlagSet(c, route, t[i].key) && FlagSet(c, route, b) && t[i].key < b)
  {
    hide FileAt, FullRun, Before, Started;
    var keys := Places(|c[route].backends|);
    PlacesStart(c, route);
    RestartOnlyFlags(c, route, i);
    assert b == keys[b];
    var x := FullRun(ByPlace(route), c, keys)[i].key;
    DrainedAtRestart(ByPlace(route), c, keys, i, b);
    PlacesBefore(|keys|, x, b);
  }

  /** At one restart. */
  lemma QuietAtPlace(c: Config, route: nat, i: nat)
    requires route < |c|
    requires var t := FullRun(ByPlace(route), c, Places(|c[route].backends|));
      i < |t| && t[i].Restart? && ServiceAt(c, route, t[i].key).Some?
    ensures var t := FullRun(ByPlace(route), c, Places(|c[route].backends|));
      QuietFor(c, route, FileAt(c, t[..i]), t[i].key) <==> OnlyAt(c, route, t[i].key)
  {
    hide FileAt, FullRun, ServiceWithPort, Reaches;
    var t := FullRun(ByPlace(route), c, Places(|c[route].backends|));
    var f, k := FileAt(c, t[..i]), t[i].key;
    RestartOnlyFlags(c, route, i);
    var service := ServiceAt(c, route, k).value;
    forall a: nat, b: nat | Listed(c, a, b)
      ensures Tolerable(c, route, k, a, b) <==> (Reaches(f[a].backends[b].url, service) ==> f[a].backends[b].drain)
    {
      if a == route {
        FlagsAtRestart(c, route, i, b);
      }
    }
    QuietListed(c, f, service);
  }

  lemma QuietListed(c: Config, f: Config, service: string)
    requires |f| == |c| && forall a :: 0 <= a < |c| ==> |f[a].backends| == |c[a].backends|
    ensures ServiceQuiet(f, service) <==> forall a: nat, b: nat :: Listed(c, a, b) ==>
      (Reaches(f[a].backends[b].url, service) ==> f[a].backends[b].drain)
  {
    hide Reaches;
    assert forall a: nat, b: nat :: Listed(c, a, b) <==> 0 <= a < |f| && 0 <= b < |f[a].backends|;
  }

  lemma PlacesForetold(c: Config, route: nat)
    requires route < |c|
    ensures Foretold(QuietRule(c, route), k => OnlyAt(c, route, k), c, ReachedRun(c, route))
  {
    hide FileAt, FullRun, Turns, Trace, OnlyAt, ServiceAt, Unique, QuietFor;
    ReachedIsPrefix(c, route);
    var t, full := ReachedRun(c, route), FullRun(ByPlace(route), c, Places(|c[route].backends|));
    forall i | 0 <= i < |t| && t[i].Restart?
      ensures QuietFor(c, route, FileAt(c, t[..i]), t[i].key) <==> OnlyAt(c, route, t[i].key)
    {
      var k := RestartPoint(ByPlace(route), c, c, Turns(c, route), i, {});
      assert t[..i] == full[..i] && t[i] == full[i] && t[i].key in Turns(c, route);
      QuietAtPlace(c, route, i);
    }
  }

  /** In the file the claim holds exactly when what reaches a service that is restarted is that backend alone, or
      drained all along: by URLs of whatever form, in whatever route. */
  lemma RestartsQuietExactly(c: Config, route: nat)
    requires route < |c|
    ensures RestartsQuiet(c, route) <==> OnlyHere(c, route)
  {
    hide FileHoldsAtRestarts, Foretold, OnlyAt, Turns, Trace;
    PlacesForetold(c, route);
    FileHoldsExactly(ByPlace(route), QuietRule(c, route), k => OnlyAt(c, route, k), c, Turns(c, route));
  }

  /** For the traffic likewise, except that the first backend, if tinylb may be behind the file on it, has to be
      quiet in what tinylb has loaded. */
  lemma RouteTrafficExactly(loaded: Config, c: Config, route: nat, polls: set<nat>)
    requires route < |c|
    ensures var turns := Turns(c, route);
      RouteTrafficQuiet(loaded, c, route, polls)
      <==> (Behind(ByPlace(route), c, turns, polls) ==> QuietFor(c, route, loaded, turns[0]))
           && forall i :: ByFile(ByPlace(route), c, turns, polls, i) ==> OnlyAt(c, route, i)
  {
    hide HoldsAtRestarts, Foretold, OnlyAt, Turns, Trace, ByFile, Unique, QuietFor;
    PlacesForetold(c, route);
    ReachedIsPrefix(c, route);
    HoldsExactly(ByPlace(route), QuietRule(c, route), k => OnlyAt(c, route, k), loaded, c, Turns(c, route), polls);
  }

  /** Started with tinylb up to date, for all backends alike. */
  lemma RouteTrafficFromFile(c: Config, route: nat, polls: set<nat>)
    requires route < |c|
    ensures RouteTrafficQuiet(c, c, route, polls) <==> OnlyHere(c, route)
  {
    hide HoldsAtRestarts, FileHoldsAtRestarts, OnlyHere, Turns, Trace;
    RestartsQuietExactly(c, route);
    HoldsFromFile(ByPlace(route), QuietRule(c, route), c, Turns(c, route), polls);
  }

  /** Each backend of the route, and no other anywhere, reaches its service. */
  ghost predicate Dedicated(c: Config, route: nat) {
    forall i: nat, a: nat, b: nat :: ServiceAt(c, route, i).Some? && Listed(c, a, b) ==>
      (Reaches(c[a].backends[b].url, ServiceAt(c, route, i).value) <==> a == route && b == i)
  }

  lemma DedicatedMeans(c: Config, route: nat, i: nat)
    requires route < |c| && Dedicated(c, route) && ServiceAt(c, route, i).Some?
    ensures OnlyAt(c, route, i)
  {
    hide Reaches, ServiceWithPort;
  }

  lemma DedicatedQuiet(c: Config, route: nat, f: Config, i: nat)
    requires Dedicated(c, route) && ServiceAt(c, route, i).Some? && OnlyFlags(c, route, f)
    ensures QuietFor(c, route, f, i) <==> FlagSet(f, route, i)
  {
    hide Reaches, ServiceWithPort;
    QuietListed(c, f, ServiceAt(c, route, i).value);
    assert Listed(c, route, i);
  }

  lemma DedicatedStays(c: Config, route: nat, f: Config)
    requires Dedicated(c, route) && OnlyFlags(c, route, f)
    ensures Dedicated(f, route)
  {
    hide Reaches, ServiceWithPort;
    forall i: nat
      ensures ServiceAt(f, route, i) == ServiceAt(c, route, i)
    {
    }
    forall a: nat, b: nat | Listed(f, a, b)
      ensures Listed(c, a, b) && f[a].backends[b].url == c[a].backends[b].url
    {
    }
  }

  /** With such backends, after any number of aborted runs and loads of tinylb's own, the next run keeps traffic
      away exactly when tinylb is not behind the file on the first backend, or catches up before the run. */
  lemma RerunRouteTrafficExactly(s: Known, route: nat, attempts: seq<Attempt>, polls: set<nat>)
    requires route < |s.file| && Dedicated(s.file, route) && OnlyFlags(s.file, route, s.loaded)
    ensures var e := Reruns(ByPlace(route), s, Places(|s.file[route].backends|), attempts);
      && route < |e.file|
      && var turns := Turns(e.file, route);
         RouteTrafficQuiet(e.loaded, e.file, route, polls)
         <==> (Behind(ByPlace(route), e.file, turns, polls) ==> FlagSet(e.loaded, route, turns[0]))
  {
    hide Dedicated, Turns, RouteTrafficQuiet, OnlyAt, QuietFor, FlagSet, Unique, Trace, Reruns;
    var e := Reruns(ByPlace(route), s, Places(|s.file[route].backends|), attempts);
    MarkOnlyFlags(s.file, route);
    RerunsKeep(ByPlace(route), KeepsAllButFlags(s.file, route), s, Places(|s.file[route].backends|), attempts);
    DedicatedStays(s.file, route, e.file);
    RouteTrafficExactly(e.loaded, e.file, route, polls);
    ReachedIsPrefix(e.file, route);
    var turns := Turns(e.file, route);
    forall i | i in turns
      ensures OnlyAt(e.file, route, i) && (QuietFor(e.file, route, e.loaded, i) <==> FlagSet(e.loaded, route, i))
    {
      DedicatedMeans(e.file, route, i);
      DedicatedQuiet(e.file, route, e.loaded, i);
    }
  }
}
