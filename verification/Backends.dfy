/** src/backends.rs: the objects behind the registry, refining its value model step by step. Ghost
    indices name the objects, so that identity on the heap is identity in the model. */
module Backends {
  import opened Prelude
  import opened Hosts
  import opened Selection
  import opened Registry

  class Backend {
    ghost const id: nat
    const url: string
    var maxConnections: Usize
    var drain: bool
    var healthy: bool
    var active: Usize
    var errorCount: nat

    constructor (config: BackendConfig, ghost id: nat)
      ensures this.id == id && url == config.url && Snapshot() == NewView(config)
    {
      this.id := id;
      url, maxConnections, drain := config.url, config.maxConnections, config.drain;
      healthy, active, errorCount := true, 0, 0;
    }

    function Snapshot(): View
      reads this
    {
      View(url, maxConnections, drain, healthy, active, errorCount)
    }
  }

  /** The object with index i is at place i. */
  ghost predicate Arena(all: seq<Backend>) { forall i :: 0 <= i < |all| ==> all[i].id == i }

  ghost predicate Within(list: seq<Backend>, all: seq<Backend>) {
    forall i :: 0 <= i < |list| ==> list[i].id < |all| && all[list[i].id] == list[i]
  }

  function Snapshots(list: seq<Backend>): (views: seq<View>)
    reads list
    ensures |views| == |list| && forall i :: 0 <= i < |list| ==> views[i] == list[i].Snapshot()
  {
    if list == [] then [] else Snapshots(list[..|list| - 1]) + [list[|list| - 1].Snapshot()]
  }

  ghost function Ids(list: seq<Backend>): (ids: seq<nat>)
    ensures |ids| == |list| && forall i :: 0 <= i < |list| ==> ids[i] == list[i].id
  {
    seq(|list|, i requires 0 <= i < |list| => list[i].id)
  }

  /** backends.iter().find(|b| b.url == url). */
  function FindBackend(list: seq<Backend>, url: string): (r: Option<Backend>)
    ensures r.Some? ==> r.value in list && r.value.url == url
  {
    if list == [] then None
    else if list[0].url == url then Some(list[0])
    else FindBackend(list[1..], url)
  }

  lemma {:induction false} FindBackendIsFindUrl(list: seq<Backend>, all: seq<Backend>, url: string)
    requires Within(list, all)
    ensures FindUrl(Snapshots(all), Ids(list), url)
         == var r := FindBackend(list, url); if r.Some? then Some(r.value.id) else None
  {
    if list != [] {
      FindBackendIsFindUrl(list[1..], all, url);
      assert Ids(list)[1..] == Ids(list[1..]);
    }
  }

  /** RAII guard on a backend's connection count; usize arithmetic wraps. */
  class ConnectionGuard {
    const backend: Backend

    constructor (backend: Backend)
      modifies backend
      ensures this.backend == backend
      ensures backend.Snapshot() == old(backend.Snapshot()).(active := Up(old(backend.active)))
    {
      this.backend := backend;
      new;
      backend.active := Up(backend.active);
    }

    method Drop()
      modifies backend
      ensures backend.Snapshot() == old(backend.Snapshot()).(active := Down(old(backend.active)))
    {
      backend.active := Down(backend.active);
    }
  }

  /** Taking a guard and dropping it restores the backend, at every count. */
  method GuardRoundTrip(backend: Backend)
    modifies backend
    ensures backend.Snapshot() == old(backend.Snapshot())
  {
    var guard := new ConnectionGuard(backend);
    guard.Drop();
  }

  lemma EmptyRoutes(w: World)
    ensures AllParse([]) && ApplyRoutes(w, []) == Progress(w, [])
  {
  }

  lemma NoWildcards(h: string)
    ensures LongestWildcard([], h) == None
  {
  }

  /** What one more route does to the search for the longest wildcard. */
  lemma LongestNext(kinds: seq<HostMatch>, h: string, i: nat)
    requires i < |kinds|
    ensures var r := LongestWildcard(kinds[..i], h);
      LongestWildcard(kinds[..i + 1], h)
      == if SuffixMatch(kinds[i], h)
            && (r.None? || !kinds[r.value].Wildcard? || ByteLength(kinds[i].suffix) >= ByteLength(kinds[r.value].suffix))
         then Some(i) else r
  {
    assert kinds[..i + 1][..i] == kinds[..i];
    hide SuffixMatch, ByteLength;
  }

  /** What one more backend does to the selection. */
  lemma SelectNext(backends: seq<Backend>, i: nat)
    requires i < |backends|
    ensures var r, next, v := Select(Snapshots(backends[..i])), Select(Snapshots(backends[..i + 1])), backends[i].Snapshot();
      && (r.Some? ==> r.value < i)
      && next == if !v.drain && v.healthy && v.active < v.max && (r.None? || v.active < backends[r.value].active) then Some(i) else r
  {
    assert backends[..i + 1][..i] == backends[..i];
    hide LeastLoaded, NoneEligible;
  }

  class BackendGroup {
    ghost const id: nat
    const host: string
    const kind: HostMatch
    var backends: seq<Backend>

    constructor (host: string, kind: HostMatch, backends: seq<Backend>, ghost id: nat)
      ensures this.host == host && this.kind == kind && this.backends == backends && this.id == id
    {
      this.host, this.kind, this.backends, this.id := host, kind, backends, id;
    }

    /** The scan with best and best_count, which starts at usize::MAX. */
    method SelectBackend() returns (r: Option<Backend>)
      ensures var i := Select(Snapshots(backends));
        r == if i.Some? then Some(backends[i.value]) else None
    {
      assert Select(Snapshots(backends[..0])) == None;
      hide Select, LeastLoaded, NoneEligible, Snapshots;
      var best: Option<nat> := None;
      var bestCount := USIZE_MAX;
      for i := 0 to |backends|
        invariant best == Select(Snapshots(backends[..i]))
        invariant bestCount == if best.Some? then backends[best.value].active else USIZE_MAX
      {
        SelectNext(backends, i);
        var backend := backends[i];
        if backend.drain {
          continue;
        }
        if !backend.healthy {
          continue;
        }
        var active := backend.active;
        var max := backend.maxConnections;
        if active >= max {
          continue;
        }
        if active < bestCount {
          best := Some(i);
          bestCount := active;
        }
      }
      assert backends[..|backends|] == backends;
      r := if best.Some? then Some(backends[best.value]) else None;
    }

    /** all: every backend object so far; grown: those and the ones made here. */
    method ApplyBackends(configs: seq<BackendConfig>, ghost all: seq<Backend>) returns (ghost grown: seq<Backend>)
      requires Arena(all) && Within(backends, all)
      modifies this, backends
      ensures Arena(grown) && Within(backends, grown) && all <= grown && (forall b :: b in grown ==> b in all || fresh(b))
      ensures Built(Snapshots(grown), Ids(backends))
           == ApplyConfigs(old(Snapshots(all)), old(Ids(backends)), configs)
    {
      var built;
      built, grown := BuildBackends(backends, configs, all);
      backends := built;
    }
  }

  /** The loop of apply_backends, shared with BackendGroup::new, which has no backends to keep. */
  method BuildBackends(existing: seq<Backend>, configs: seq<BackendConfig>, ghost all: seq<Backend>)
    returns (newBackends: seq<Backend>, ghost grown: seq<Backend>)
    requires Arena(all) && Within(existing, all)
    modifies existing
    ensures Arena(grown) && Within(newBackends, grown) && all <= grown && (forall b :: b in grown ==> b in all || fresh(b))
    ensures Built(Snapshots(grown), Ids(newBackends)) == ApplyConfigs(old(Snapshots(all)), Ids(existing), configs)
  {
    hide ApplyConfigs, Snapshots, Within, Arena;
    newBackends, grown := [], all;
    EmptyBuild(all, existing);
    assert configs[..0] == [];
    for i := 0 to |configs|
      invariant Arena(grown) && Within(existing, grown) && Within(newBackends, grown)
      invariant all <= grown && (forall b :: b in grown ==> b in all || fresh(b))
      invariant Built(Snapshots(grown), Ids(newBackends))
             == ApplyConfigs(old(Snapshots(all)), Ids(existing), configs[..i])
    {
      hide ApplyOne;
      newBackends, grown := BuildOne(existing, configs[i], newBackends, grown);
      ApplyConfigsSnoc(old(Snapshots(all)), Ids(existing), configs[..i], configs[i]);
      assert configs[..i + 1] == configs[..i] + [configs[i]];
    }
    assert configs[..|configs|] == configs;
  }

  lemma EmptyBuild(all: seq<Backend>, existing: seq<Backend>)
    ensures Within([], all)
    ensures Built(Snapshots(all), Ids([])) == ApplyConfigs(Snapshots(all), Ids(existing), [])
  {
  }

  method BuildOne(existing: seq<Backend>, config: BackendConfig, list: seq<Backend>, ghost all: seq<Backend>)
    returns (longer: seq<Backend>, ghost grown: seq<Backend>)
    requires Arena(all) && Within(existing, all) && Within(list, all)
    modifies existing
    ensures Arena(grown) && Within(existing, grown) && Within(longer, grown) && all <= grown && (forall b :: b in grown ==> b in all || fresh(b))
    ensures Built(Snapshots(grown), Ids(longer))
         == ApplyOne(Built(old(Snapshots(all)), Ids(list)), Ids(existing), config)
  {
    hide Snapshots, FindUrl;
    ghost var before := Snapshots(all);
    grown := all;
    FindBackendIsFindUrl(existing, all, config.url);
    var found := FindBackend(existing, config.url);
    if found.Some? {
      var b := found.value;
      b.maxConnections := config.maxConnections;
      b.drain := config.drain;
      longer := list + [b];
      assert Snapshots(grown) == before[b.id := before[b.id].(max := config.maxConnections, drain := config.drain)];
      assert Ids(longer) == Ids(list) + [b.id];
    } else {
      var b := new Backend(config, |all|);
      longer := list + [b];
      grown := all + [b];
      assert Snapshots(grown) == before + [NewView(config)];
      assert Ids(longer) == Ids(list) + [b.id];
    }
  }

  class BackendRegistry {
    var groups: seq<BackendGroup>
    ghost var allBackends: seq<Backend>
    ghost var allGroups: seq<BackendGroup>

    ghost predicate Valid()
      reads this, allGroups
    {
      && Arena(allBackends)
      && GroupArena(allGroups)
      && GroupsWithin(groups, allGroups)
      && (forall i :: 0 <= i < |allGroups| ==> Within(allGroups[i].backends, allBackends))
      && KindsParsed(allGroups)
    }

    /** The registry as a value. */
    ghost function Abs(): World
      reads this, allBackends, allGroups
    {
      World(Snapshots(allBackends), GroupValues(allGroups), GroupIds(groups))
    }

    constructor ()
      ensures Valid() && Abs() == World([], [], []) && groups == []
    {
      groups, allBackends, allGroups := [], [], [];
    }

    /** The search for an exact match, then for the longest wildcard; max_by_key keeps the last of equals. */
    method FindGroup(host: string) returns (r: Option<BackendGroup>)
      requires Valid()
      ensures var h := Lower(BeforeColon(host));
        match r
        case Some(g) => g in groups && BestMatch(Kinds(groups), h, g.kind)
        case None => NoMatch(Kinds(groups), h)
      ensures BestByHost(groups, BeforeColon(host), r)
      ensures var i := Hosts.FindGroup(Kinds(groups), host);
        r == if i.Some? then Some(groups[i.value]) else None
    {
      assert KindsParsed(allGroups) && GroupsWithin(groups, allGroups);
      hide *;
      var h := Lower(BeforeColon(host));
      var i := FindExact(groups, h);
      if i.None? {
        i := FindLongest(groups, h);
      }
      FoundGroup(groups, allGroups, host);
      r := if i.Some? then Some(groups[i.value]) else None;
    }

    /** Validates every route first; the parse of each new group then cannot fail. */
    method ApplyConfig(routes: seq<RouteConfig>) returns (r: Result<(), HostError>)
      requires Valid()
      modifies this, (set b | b in allBackends), (set g | g in allGroups)
      ensures Valid() && old(allBackends) <= allBackends && old(allGroups) <= allGroups
      ensures r.Ok? <==> AllParse(routes)
      ensures Abs() == Registry.ApplyConfig(old(Abs()), routes)
      ensures r.Err? ==> groups == old(groups) && RejectedWith(routes, r.error)
    {
      hide Snapshots, GroupValues, ApplyRoutes, AllParse, KindsParsed, Within, Arena, GroupArena;
      var bad := FirstBadHost(routes);
      if bad.Some? {
        return Err(bad.value);
      }
      var newGroups := ApplyAll(routes);
      groups := newGroups;
      r := Ok(());
    }

    /** The loop of apply_config, once every host is known to parse; groups still holds the old table. */
    method ApplyAll(routes: seq<RouteConfig>) returns (newGroups: seq<BackendGroup>)
      requires Valid() && AllParse(routes)
      modifies this`allBackends, this`allGroups, (set b | b in allBackends), (set g | g in allGroups)
      ensures Valid() && GroupsWithin(newGroups, allGroups)
      ensures old(allBackends) <= allBackends && old(allGroups) <= allGroups
      ensures Progress(Abs(), GroupIds(newGroups)) == ApplyRoutes(old(Abs()), routes)
    {
      hide ApplyRoute, Snapshots, GroupValues, Parse, Within, Arena, GroupArena;
      newGroups := [];
      ghost var start := Abs();
      for i := 0 to |routes|
        invariant Valid() && GroupsWithin(newGroups, allGroups)
        invariant old(allBackends) <= allBackends && old(allGroups) <= allGroups
        invariant forall b :: b in allBackends ==> b in old(allBackends) || fresh(b)
        invariant forall g :: g in allGroups ==> g in old(allGroups) || fresh(g)
        invariant Progress(Abs(), GroupIds(newGroups)) == ApplyRoutes(start, routes[..i])
      {
        newGroups := ApplyOneRoute(routes[i], newGroups);
        ApplyRoutesSnoc(start, routes[..i], routes[i]);
        assert routes[..i + 1] == routes[..i] + [routes[i]];
      }
      assert routes[..|routes|] == routes;
    }

    method ApplyOneRoute(route: RouteConfig, list: seq<BackendGroup>) returns (longer: seq<BackendGroup>)
      requires Valid() && GroupsWithin(list, allGroups) && Parse(route.host).Ok?
      modifies this`allBackends, this`allGroups, (set b | b in allBackends), (set g | g in allGroups)
      ensures Valid() && GroupsWithin(longer, allGroups)
      ensures old(allBackends) <= allBackends && old(allGroups) <= allGroups
      ensures forall b :: b in allBackends ==> b in old(allBackends) || fresh(b)
      ensures forall g :: g in allGroups ==> g in old(allGroups) || fresh(g)
      ensures Progress(Abs(), GroupIds(longer)) == ApplyRoute(Progress(old(Abs()), GroupIds(list)), route)
    {
      hide Snapshots, Parse, FindHost, GroupValues, ApplyConfigs, Within, Arena, GroupArena;
      FindGroupIsFindHost(groups, allGroups, route.host);
      var found := FindByHost(groups, route.host);
      var g;
      if found.Some? {
        g := found.value;
        UpdateGroup(g, route.backends);
      } else {
        g := AddGroup(route);
      }
      longer := list + [g];
      assert GroupIds(longer) == GroupIds(list) + [g.id];
    }

    method UpdateGroup(g: BackendGroup, configs: seq<BackendConfig>)
      requires Valid() && g.id < |allGroups| && allGroups[g.id] == g
      modifies this`allBackends, allBackends, g
      ensures Valid() && old(allBackends) <= allBackends
      ensures forall b :: b in allBackends ==> b in old(allBackends) || fresh(b)
      ensures Abs() == Registry.ApplyBackends(old(Abs()), g.id, configs)
    {
      hide Snapshots, GroupValues, ApplyConfigs;
      ghost var before := GroupValues(allGroups);
      assert Within(allGroups[g.id].backends, allBackends);
      assert forall i :: 0 <= i < |g.backends| ==> g.backends[i] in allBackends;
      ghost var all := allBackends;
      ghost var grown := g.ApplyBackends(configs, allBackends);
      forall i | 0 <= i < |allGroups| && allGroups[i] != g
        ensures Within(allGroups[i].backends, all)
      {
        assert allGroups[i].backends == old(allGroups[i].backends);
      }
      WithinGrows(allGroups, g, all, grown);
      allBackends := grown;
      assert GroupValues(allGroups) == before[g.id := before[g.id].(backends := Ids(g.backends))];
    }

    method AddGroup(route: RouteConfig) returns (g: BackendGroup)
      requires Valid() && Parse(route.host).Ok?
      modifies this`allBackends, this`allGroups
      ensures Valid() && old(allBackends) <= allBackends && allGroups == old(allGroups) + [g]
      ensures fresh(g) && g.id == |old(allGroups)|
      ensures forall b :: b in allBackends ==> b in old(allBackends) || fresh(b)
      ensures Abs() == NewGroup(old(Abs()), route)
    {
      hide Snapshots, GroupValues, ApplyConfigs, Parse, KindsParsed, Arena;
      ghost var before := GroupValues(allGroups);
      ghost var was, groupsWere := allBackends, allGroups;
      var created;
      ghost var grown;
      created, grown := NewBackendGroup(route, allBackends, |allGroups|);
      assert created.Ok?;  // validated by the caller: the unwrap in the source cannot fail
      g := created.value;
      allBackends := grown;
      KindsParsedWith(allGroups, g);
      allGroups := allGroups + [g];
      WithinStays(groupsWere, g, was, grown);
      hide Within;
      assert GroupValues(allGroups) == before + [Group(route.host, Parse(route.host).value, Ids(g.backends))];
    }
  }

  /** BackendRegistry::new: a group for each route, or the error of the first host that does not parse. The
      result is what a reload makes of an empty registry. */
  method NewRegistry(routes: seq<RouteConfig>) returns (r: Result<BackendRegistry, HostError>)
    ensures r.Ok? <==> AllParse(routes)
    ensures r.Ok? ==> fresh(r.value) && r.value.Valid() && r.value.Abs() == Registry.ApplyConfig(World([], [], []), routes)
    ensures r.Err? ==> RejectedWith(routes, r.error)
  {
    hide ApplyRoute, ApplyRoutes, Snapshots, GroupValues, Parse, Within, Arena, GroupArena, KindsParsed;
    EmptyRoutes(World([], [], []));
    var registry := new BackendRegistry();
    var groups: seq<BackendGroup> := [];
    ghost var start := registry.Abs();
    for i := 0 to |routes|
      invariant AllParse(routes[..i])
      invariant registry.Valid() && GroupsWithin(groups, registry.allGroups) && registry.groups == []
      invariant Progress(registry.Abs(), GroupIds(groups)) == ApplyRoutes(start, routes[..i])
    {
      var parsed := Parse(routes[i].host);
      if parsed.Err? {
        return Err(parsed.error);
      }
      groups := PushGroup(registry, groups, routes[i]);
      ApplyRoutesSnoc(start, routes[..i], routes[i]);
      assert routes[..i + 1] == routes[..i] + [routes[i]];
    }
    assert routes[..|routes|] == routes;
    registry.groups := groups;
    r := Ok(registry);
  }

  /** groups.push(BackendGroup::new(r)) of a host that parses. */
  method PushGroup(registry: BackendRegistry, groups: seq<BackendGroup>, route: RouteConfig) returns (longer: seq<BackendGroup>)
    requires registry.Valid() && GroupsWithin(groups, registry.allGroups) && registry.groups == [] && Parse(route.host).Ok?
    modifies registry`allBackends, registry`allGroups
    ensures registry.Valid() && GroupsWithin(longer, registry.allGroups)
    ensures Progress(registry.Abs(), GroupIds(longer)) == ApplyRoute(Progress(old(registry.Abs()), GroupIds(groups)), route)
  {
    hide Snapshots, GroupValues, Parse, Within, Arena, GroupArena, KindsParsed, ApplyRoute, NewGroup;
    EmptyTableAdds(Progress(registry.Abs(), GroupIds(groups)), route);
    var g := registry.AddGroup(route);
    longer := groups + [g];
    assert GroupIds(longer) == GroupIds(groups) + [g.id];
  }

  lemma EmptyTableAdds(p: Progress, route: RouteConfig)
    requires p.w.table == [] && Parse(route.host).Ok?
    ensures ApplyRoute(p, route) == Progress(NewGroup(p.w, route), p.table + [|p.w.groups|])
  {
    hide Parse, NewGroup;
  }

  /** The error is that of the first route whose host does not parse. */
  ghost predicate RejectedWith(routes: seq<RouteConfig>, error: HostError) {
    exists i :: 0 <= i < |routes| && AllParse(routes[..i]) && Parse(routes[i].host) == Err(error)
  }

  /** The validation loop of apply_config. */
  method FirstBadHost(routes: seq<RouteConfig>) returns (bad: Option<HostError>)
    ensures bad.None? <==> AllParse(routes)
    ensures bad.Some? ==> RejectedWith(routes, bad.value)
  {
    hide Parse;
    for i := 0 to |routes|
      invariant forall j :: 0 <= j < i ==> Parse(routes[j].host).Ok?
    {
      var parsed := Parse(routes[i].host);
      if parsed.Err? {
        assert AllParse(routes[..i]);
        return Some(parsed.error);
      }
    }
    return None;
  }

  // ----------------------------------------------------------- groups as values

  /** A group's kind is what its host parses to. */
  ghost predicate KindsParsed(all: seq<BackendGroup>) { forall i :: 0 <= i < |all| ==> Parse(all[i].host) == Ok(all[i].kind) }

  lemma WithinStays(groups: seq<BackendGroup>, g: BackendGroup, all: seq<Backend>, grown: seq<Backend>)
    requires all <= grown && Within(g.backends, grown)
    requires forall i :: 0 <= i < |groups| ==> Within(groups[i].backends, all)
    ensures forall i :: 0 <= i < |groups| + 1 ==> Within((groups + [g])[i].backends, grown)
  {
  }

  lemma KindsParsedWith(all: seq<BackendGroup>, g: BackendGroup)
    requires KindsParsed(all) && Parse(g.host) == Ok(g.kind)
    ensures KindsParsed(all + [g])
  {
    hide Parse;
  }

  lemma KindsAreDotted(list: seq<BackendGroup>, all: seq<BackendGroup>)
    requires KindsParsed(all) && GroupsWithin(list, all)
    ensures AllDotted(Kinds(list))
  {
    hide Parse;
    forall i | 0 <= i < |list|
      ensures Dotted(list[i].kind)
    {
      assert Parse(all[list[i].id].host) == Ok(list[i].kind);
      ParseUpToCase(list[i].host, list[i].host);
    }
  }

  /** The first group with an exact match. */
  method FindExact(list: seq<BackendGroup>, h: string) returns (r: Option<nat>)
    ensures r == FirstExact(Kinds(list), h)
  {
    hide FirstExact;
    ghost var kinds := Kinds(list);
    FirstExactFinds(kinds, h);
    for i := 0 to |list|
      invariant Exact(h) !in kinds[..i]
    {
      assert kinds[..i + 1] == kinds[..i] + [list[i].kind];
      if list[i].kind == Exact(h) {
        FirstExactAt(kinds, h, i);
        return Some(i);
      }
    }
    assert kinds[..|list|] == kinds;
    r := None;
  }

  /** max_by_key over the matching wildcards; it keeps the last of equals. */
  method FindLongest(list: seq<BackendGroup>, h: string) returns (best: Option<nat>)
    ensures best == LongestWildcard(Kinds(list), h)
  {
    hide LongestWildcard;
    ghost var kinds := Kinds(list);
    best := None;
    NoWildcards(h);
    assert kinds[..0] == [];
    for i := 0 to |list|
      invariant best == LongestWildcard(kinds[..i], h)
    {
      LongestNext(kinds, h, i);
      var kind := list[i].kind;
      if SuffixMatch(kind, h) {
        if best.None? || !list[best.value].kind.Wildcard?
           || ByteLength(kind.suffix) >= ByteLength(list[best.value].kind.suffix) {
          best := Some(i);
        }
      }
    }
    assert kinds[..|list|] == kinds;
  }

  /** What the two searches find, by labels and by configured hosts. */
  lemma FoundGroup(list: seq<BackendGroup>, all: seq<BackendGroup>, host: string)
    requires KindsParsed(all) && GroupsWithin(list, all)
    ensures var h, kinds := Lower(BeforeColon(host)), Kinds(list);
      var i := if FirstExact(kinds, h).Some? then FirstExact(kinds, h) else LongestWildcard(kinds, h);
      var r := if i.Some? then Some(list[i.value]) else None;
      && i == Hosts.FindGroup(kinds, host)
      && BestByHost(list, BeforeColon(host), r)
      && match r
         case Some(g) => g in list && BestMatch(kinds, h, g.kind)
         case None => NoMatch(kinds, h)
  {
    FoundByHost(list, all, host);
    KindsAreDotted(list, all);
    FindGroupByLabels(Kinds(list), host);
    hide FirstExact, LongestWildcard, BestByHost, BestMatch, NoMatch, BeforeColon;
  }

  ghost function HostsOf(list: seq<BackendGroup>): (hosts: seq<string>)
    ensures |hosts| == |list| && forall i :: 0 <= i < |list| ==> hosts[i] == list[i].host
  {
    seq(|list|, i requires 0 <= i < |list| => list[i].host)
  }

  /** A listed group whose configured host serves the name, a plain host before a star and a longer star before a
      shorter; or there is none. */
  ghost predicate BestByHost(list: seq<BackendGroup>, name: string, r: Option<BackendGroup>) {
    match r
    case Some(g) => g in list && Serves(g.host, name) && (Starred(g.host) ==>
      forall k :: k in list && Serves(k.host, name) ==> Starred(k.host) && |k.host| <= |g.host|)
    case None => forall k :: k in list ==> !Serves(k.host, name)
  }

  /** The search by configured host strings; host may have a port. */
  lemma FoundByHost(list: seq<BackendGroup>, all: seq<BackendGroup>, host: string)
    requires KindsParsed(all) && GroupsWithin(list, all)
    ensures var i := Hosts.FindGroup(Kinds(list), host);
      BestByHost(list, BeforeColon(host), if i.Some? then Some(list[i.value]) else None)
  {
    hide Parse, Serves, Starred, BeforeColon;
    var name := BeforeColon(host);
    forall i | 0 <= i < |list|
      ensures Parse(HostsOf(list)[i]) == Ok(Kinds(list)[i])
    {
      assert Parse(all[list[i].id].host) == Ok(list[i].kind);
    }
    RoutesByHost(HostsOf(list), Kinds(list), name, "");
    NoColon(name, "");
  }

  lemma {:induction false} FirstExactAt(kinds: seq<HostMatch>, h: string, i: nat)
    requires i < |kinds| && kinds[i] == Exact(h) && Exact(h) !in kinds[..i]
    ensures FirstExact(kinds, h) == Some(i)
  {
    if i > 0 {
      assert kinds[..i] == [kinds[0]] + kinds[1..][..i - 1];
      FirstExactAt(kinds[1..], h, i - 1);
    }
  }

  ghost predicate GroupArena(all: seq<BackendGroup>) { forall i :: 0 <= i < |all| ==> all[i].id == i }

  ghost predicate GroupsWithin(list: seq<BackendGroup>, all: seq<BackendGroup>) {
    forall i :: 0 <= i < |list| ==> list[i].id < |all| && all[list[i].id] == list[i]
  }

  ghost function GroupIds(list: seq<BackendGroup>): (ids: seq<nat>)
    ensures |ids| == |list| && forall i :: 0 <= i < |list| ==> ids[i] == list[i].id
  {
    seq(|list|, i requires 0 <= i < |list| => list[i].id)
  }

  ghost function GroupValue(g: BackendGroup): Group
    reads g
  {
    Group(g.host, g.kind, Ids(g.backends))
  }

  ghost function GroupValues(list: seq<BackendGroup>): (values: seq<Group>)
    reads list
    ensures |values| == |list| && forall i :: 0 <= i < |list| ==> values[i] == GroupValue(list[i])
  {
    if list == [] then [] else GroupValues(list[..|list| - 1]) + [GroupValue(list[|list| - 1])]
  }

  function Kinds(list: seq<BackendGroup>): (kinds: seq<HostMatch>)
    ensures |kinds| == |list| && forall i :: 0 <= i < |list| ==> kinds[i] == list[i].kind
  {
    seq(|list|, i requires 0 <= i < |list| => list[i].kind)
  }

  function FindByHost(list: seq<BackendGroup>, host: string): (r: Option<BackendGroup>)
    ensures r.Some? ==> r.value in list && r.value.host == host
  {
    if list == [] then None
    else if list[0].host == host then Some(list[0])
    else FindByHost(list[1..], host)
  }

  lemma {:induction false} FindGroupIsFindHost(list: seq<BackendGroup>, all: seq<BackendGroup>, host: string)
    requires GroupsWithin(list, all)
    ensures FindHost(GroupValues(all), GroupIds(list), host)
         == var r := FindByHost(list, host); if r.Some? then Some(r.value.id) else None
  {
    if list != [] {
      FindGroupIsFindHost(list[1..], all, host);
      assert GroupIds(list)[1..] == GroupIds(list[1..]);
    }
  }

  lemma WithinGrows(groups: seq<BackendGroup>, g: BackendGroup, all: seq<Backend>, grown: seq<Backend>)
    requires all <= grown && Within(g.backends, grown)
    requires forall i :: 0 <= i < |groups| && groups[i] != g ==> Within(groups[i].backends, all)
    ensures forall i :: 0 <= i < |groups| ==> Within(groups[i].backends, grown)
  {
  }

  /** BackendGroup::new: fails exactly when the host does not parse. */
  method NewBackendGroup(route: RouteConfig, ghost all: seq<Backend>, ghost id: nat)
    returns (r: Result<BackendGroup, HostError>, ghost grown: seq<Backend>)
    requires Arena(all)
    ensures Arena(grown) && all <= grown && (forall b :: b in grown ==> b in all || fresh(b))
    ensures r.Ok? <==> Parse(route.host).Ok?
    ensures r.Err? ==> grown == all
    ensures r.Ok? ==>
      && fresh(r.value) && r.value.id == id && r.value.host == route.host && r.value.kind == Parse(route.host).value
      && Within(r.value.backends, grown)
      && Built(Snapshots(grown), Ids(r.value.backends)) == ApplyConfigs(Snapshots(all), [], route.backends)
  {
    hide Parse, Snapshots;
    var kind := Parse(route.host);
    if kind.Err? {
      grown := all;
      return Err(kind.error), grown;
    }
    var built;
    built, grown := BuildBackends([], route.backends, all);
    assert Ids([]) == [];
    var g := new BackendGroup(route.host, kind.value, built, id);
    r := Ok(g);
  }
}
