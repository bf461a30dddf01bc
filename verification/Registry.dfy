/** The registry of src/backends.rs as a value: every backend and group object ever made, by index,
    and which groups the table holds. Objects that leave the table keep their place, so an index is
    an identity. */
module Registry {
  import opened Prelude
  import opened Hosts
  import opened Selection

  datatype BackendConfig = BackendConfig(url: string, maxConnections: Usize, drain: bool)

  datatype RouteConfig = RouteConfig(host: string, backends: seq<BackendConfig>)

  datatype Group = Group(host: string, kind: HostMatch, backends: seq<nat>)

  datatype World = World(backends: seq<View>, groups: seq<Group>, table: seq<nat>)

  // ---------------------------------------------------------------- reloading

  /** Backend::new. */
  function NewView(c: BackendConfig): View { View(c.url, c.maxConnections, c.drain, true, 0, 0) }

  /** The first object of the list with the URL. */
  function FindUrl(backends: seq<View>, ids: seq<nat>, url: string): (r: Option<nat>)
    ensures r.Some? ==> r.value in ids && r.value < |backends| && backends[r.value].url == url
    ensures r.None? ==> forall id :: id in ids && id < |backends| ==> backends[id].url != url
  {
    if ids == [] then None
    else if ids[0] < |backends| && backends[ids[0]].url == url then Some(ids[0])
    else FindUrl(backends, ids[1..], url)
  }

  function FindHost(groups: seq<Group>, table: seq<nat>, host: string): (r: Option<nat>)
    ensures r.Some? ==> r.value in table && r.value < |groups| && groups[r.value].host == host
    ensures r.None? ==> forall g :: g in table && g < |groups| ==> groups[g].host != host
  {
    if table == [] then None
    else if table[0] < |groups| && groups[table[0]].host == host then Some(table[0])
    else FindHost(groups, table[1..], host)
  }

  /** Objects after some configs, and the list built so far. */
  datatype Built = Built(backends: seq<View>, ids: seq<nat>)

  /** One config of apply_backends: keep the object with this URL or make one. */
  function ApplyOne(b: Built, held: seq<nat>, c: BackendConfig): Built {
    var found := FindUrl(b.backends, held, c.url);
    if found.Some? then
      var v := b.backends[found.value];
      Built(b.backends[found.value := v.(max := c.maxConnections, drain := c.drain)], b.ids + [found.value])
    else
      Built(b.backends + [NewView(c)], b.ids + [|b.backends|])
  }

  function ApplyConfigs(backends: seq<View>, held: seq<nat>, configs: seq<BackendConfig>): Built {
    if configs == [] then Built(backends, [])
    else
      var n := |configs| - 1;
      ApplyOne(ApplyConfigs(backends, held, configs[..n]), held, configs[n])
  }

  /** apply_backends on one group. */
  function ApplyBackends(w: World, g: nat, configs: seq<BackendConfig>): World
    requires g < |w.groups|
  {
    var built := ApplyConfigs(w.backends, w.groups[g].backends, configs);
    w.(backends := built.backends, groups := w.groups[g := w.groups[g].(backends := built.ids)])
  }

  /** BackendGroup::new for a host that parses. */
  function NewGroup(w: World, route: RouteConfig): World
    requires Parse(route.host).Ok?
  {
    var built := ApplyConfigs(w.backends, [], route.backends);
    w.(backends := built.backends,
       groups := w.groups + [Group(route.host, Parse(route.host).value, built.ids)])
  }

  predicate AllParse(routes: seq<RouteConfig>) {
    forall i :: 0 <= i < |routes| ==> Parse(routes[i].host).Ok?
  }

  /** The routes so far applied: w.table is still the old table. */
  datatype Progress = Progress(w: World, table: seq<nat>)

  function ApplyRoute(p: Progress, route: RouteConfig): Progress
    requires Parse(route.host).Ok?
  {
    var found := FindHost(p.w.groups, p.w.table, route.host);
    if found.Some? then
      Progress(ApplyBackends(p.w, found.value, route.backends), p.table + [found.value])
    else
      Progress(NewGroup(p.w, route), p.table + [|p.w.groups|])
  }

  function ApplyRoutes(w: World, routes: seq<RouteConfig>): Progress
    requires AllParse(routes)
  {
    if routes == [] then Progress(w, [])
    else
      var n := |routes| - 1;
      ApplyRoute(ApplyRoutes(w, routes[..n]), routes[n])
  }

  /** apply_config: nothing at all unless every host parses. */
  function ApplyConfig(w: World, routes: seq<RouteConfig>): World {
    if AllParse(routes) then
      var p := ApplyRoutes(w, routes);
      p.w.(table := p.table)
    else w
  }

  // --------------------------------------------------------------- invariants

  predicate Owned(w: World, g: nat, id: nat) { g < |w.groups| && id in w.groups[g].backends }

  /** Indices are in range and no backend object belongs to two groups. */
  ghost predicate WellFormed(w: World) {
    && (forall g: nat, id: nat :: Owned(w, g, id) ==> id < |w.backends|)
    && (forall g: nat, h: nat, id: nat :: Owned(w, g, id) && Owned(w, h, id) ==> g == h)
    && (forall i :: 0 <= i < |w.table| ==> w.table[i] < |w.groups|)
    && (forall g :: 0 <= g < |w.groups| ==> Parse(w.groups[g].host) == Ok(w.groups[g].kind))
  }

  predicate DistinctUrls(configs: seq<BackendConfig>) {
    forall i, j :: 0 <= i < j < |configs| ==> configs[i].url != configs[j].url
  }

  predicate DistinctHosts(routes: seq<RouteConfig>) {
    forall i, j :: 0 <= i < j < |routes| ==> routes[i].host != routes[j].host
  }

  predicate Distinct(routes: seq<RouteConfig>) {
    DistinctHosts(routes) && forall i :: 0 <= i < |routes| ==> DistinctUrls(routes[i].backends)
  }

  /** What a reload never touches in an object. */
  predicate SameRuntime(v: View, u: View) {
    v.url == u.url && v.healthy == u.healthy && v.active == u.active && v.errors == u.errors
  }

  /** Every old object is still there, with its URL, health, connections and errors. */
  predicate Preserved(before: seq<View>, after: seq<View>) {
    |before| <= |after| && forall id :: 0 <= id < |before| ==> SameRuntime(before[id], after[id])
  }

  /** The listed objects carry the configured URL, cap and drain flag, in order. */
  predicate Reflects(backends: seq<View>, ids: seq<nat>, configs: seq<BackendConfig>) {
    |ids| == |configs| && forall j :: 0 <= j < |ids| ==>
      ids[j] < |backends| && backends[ids[j]].url == configs[j].url
      && backends[ids[j]].max == configs[j].maxConnections && backends[ids[j]].drain == configs[j].drain
  }

  /** URL lookups only see URLs, which never change. */
  lemma {:induction false} FindUrlStable(before: seq<View>, after: seq<View>, ids: seq<nat>, url: string)
    requires Preserved(before, after) && forall i :: 0 <= i < |ids| ==> ids[i] < |before|
    ensures FindUrl(after, ids, url) == FindUrl(before, ids, url)
  {
    if ids != [] {
      assert ids[0] < |before|;
      assert SameRuntime(before[ids[0]], after[ids[0]]);
      FindUrlStable(before, after, ids[1..], url);
    }
  }

  /** A backend as it starts out. */
  predicate Unused(v: View) { v.healthy && v.active == 0 && v.errors == 0 }

  /** Old objects are preserved, those not held are as they were, and new ones are unused. */
  ghost predicate OnlyHeld(before: seq<View>, held: seq<nat>, after: seq<View>) {
    && Preserved(before, after)
    && (forall id :: |before| <= id < |after| ==> Unused(after[id]))
    && (forall id :: 0 <= id < |before| && id !in held ==> after[id] == before[id])
  }

  lemma ApplyOneOnlyHeld(before: seq<View>, held: seq<nat>, b: Built, c: BackendConfig)
    requires OnlyHeld(before, held, b.backends)
    ensures OnlyHeld(before, held, ApplyOne(b, held, c).backends)
  {
    hide FindUrl;
  }

  /** After apply_backends: old objects preserved, others untouched, and each place of the new list holds the
      old object with that URL or a new one. */
  ghost predicate Applied(before: seq<View>, held: seq<nat>, configs: seq<BackendConfig>, b: Built) {
    && OnlyHeld(before, held, b.backends)
    && |b.ids| == |configs|
    && (forall j :: 0 <= j < |b.ids| ==>
          b.ids[j] < |b.backends|
          && (var found := FindUrl(before, held, configs[j].url);
              if found.Some? then b.ids[j] == found.value else b.ids[j] >= |before|))
    && (DistinctUrls(configs) ==> Reflects(b.backends, b.ids, configs))
  }

  lemma ApplyConfigsSnoc(backends: seq<View>, held: seq<nat>, configs: seq<BackendConfig>, c: BackendConfig)
    ensures ApplyConfigs(backends, held, configs + [c]) == ApplyOne(ApplyConfigs(backends, held, configs), held, c)
  {
    hide ApplyOne;
    assert (configs + [c])[..|configs|] == configs;
  }

  lemma {:induction false} ApplyConfigsApplies(before: seq<View>, held: seq<nat>, configs: seq<BackendConfig>)
    requires forall i :: 0 <= i < |held| ==> held[i] < |before|
    ensures Applied(before, held, configs, ApplyConfigs(before, held, configs))
  {
    if configs != [] {
      var n := |configs| - 1;
      ApplyConfigsApplies(before, held, configs[..n]);
      ApplyOneApplies(before, held, configs, ApplyConfigs(before, held, configs[..n]));
    }
  }

  lemma ApplyOneApplies(before: seq<View>, held: seq<nat>, configs: seq<BackendConfig>, b: Built)
    requires configs != [] && forall i :: 0 <= i < |held| ==> held[i] < |before|
    requires Applied(before, held, configs[..|configs| - 1], b)
    ensures Applied(before, held, configs, ApplyOne(b, held, configs[|configs| - 1]))
  {
    hide FindUrl, Reflects, DistinctUrls, OnlyHeld;
    var n := |configs| - 1;
    var c := configs[n];
    var after := ApplyOne(b, held, c);
    ApplyOneOnlyHeld(before, held, b, c);
    OnlyHeldPreserves(before, held, b.backends);
    OnlyHeldPreserves(before, held, after.backends);
    FindUrlStable(before, b.backends, held, c.url);
    hide SameRuntime, Preserved;
    assert forall j :: 0 <= j < n ==> configs[..n][j] == configs[j] && after.ids[j] == b.ids[j];
    if DistinctUrls(configs) {
      FewerDistinct(configs);
      ReflectsOneMore(b, held, configs, after);
    }
  }

  /** If no later place has the same object, the object is as configured at place j. */
  ghost predicate Stands(b: Built, configs: seq<BackendConfig>, j: nat) {
    && j < |configs| == |b.ids| && b.ids[j] < |b.backends|
    && ((forall k :: j < k < |b.ids| ==> b.ids[k] != b.ids[j]) ==>
          var v := b.backends[b.ids[j]];
          v.url == configs[j].url && v.max == configs[j].maxConnections && v.drain == configs[j].drain)
  }

  lemma StillStands(b: Built, held: seq<nat>, configs: seq<BackendConfig>, j: nat)
    requires j < |configs| - 1 && Stands(b, configs[..|configs| - 1], j)
    ensures Stands(ApplyOne(b, held, configs[|configs| - 1]), configs, j)
  {
    hide FindUrl;
    var n := |configs| - 1;
    var t := ApplyOne(b, held, configs[n]);
    assert t.ids[..n] == b.ids && configs[..n][j] == configs[j];
    if forall k :: j < k < |t.ids| ==> t.ids[k] != t.ids[j] {
      forall k | j < k < |b.ids|
        ensures b.ids[k] != b.ids[j]
      {
        assert t.ids[k] == b.ids[k];
      }
      assert t.ids[n] != t.ids[j];
    }
  }

  lemma LastStands(b: Built, held: seq<nat>, configs: seq<BackendConfig>)
    requires configs != [] && |b.ids| == |configs| - 1
    ensures Stands(ApplyOne(b, held, configs[|configs| - 1]), configs, |configs| - 1)
  {
    hide FindUrl;
  }

  /** A URL may be configured more than once in a route: the places then share an object, and the last config of
      those stands. */
  lemma {:induction false} LastConfigWins(before: seq<View>, held: seq<nat>, configs: seq<BackendConfig>, j: nat)
    requires j < |configs| && forall i :: 0 <= i < |held| ==> held[i] < |before|
    ensures Stands(ApplyConfigs(before, held, configs), configs, j)
  {
    var n := |configs| - 1;
    ApplyConfigsApplies(before, held, configs[..n]);
    var b := ApplyConfigs(before, held, configs[..n]);
    assert |b.ids| == n;
    if j < n {
      LastConfigWins(before, held, configs[..n], j);
      hide Stands, ApplyOne, Applied;
      StillStands(b, held, configs, j);
    } else {
      hide Stands, ApplyOne, Applied;
      LastStands(b, held, configs);
    }
  }

  lemma OnlyHeldPreserves(before: seq<View>, held: seq<nat>, after: seq<View>)
    requires OnlyHeld(before, held, after)
    ensures Preserved(before, after)
  {
  }

  lemma FewerDistinct(configs: seq<BackendConfig>)
    requires configs != [] && DistinctUrls(configs)
    ensures DistinctUrls(configs[..|configs| - 1])
  {
  }

  lemma ReflectsOneMore(b: Built, held: seq<nat>, configs: seq<BackendConfig>, after: Built)
    requires configs != [] && DistinctUrls(configs)
    requires Reflects(b.backends, b.ids, configs[..|configs| - 1])
    requires after == ApplyOne(b, held, configs[|configs| - 1])
    ensures Reflects(after.backends, after.ids, configs)
  {
    hide FindUrl;
    var n := |configs| - 1;
    forall j | 0 <= j < n
      ensures b.ids[j] != after.ids[n]
    {
      assert configs[..n][j].url == configs[j].url != configs[n].url;
    }
  }

  // ------------------------------------------------------- reloading one group

  /** From w to t only group g changed, and of the old backends only g's own. */
  ghost predicate OnlyGroup(w: World, t: World, g: nat) {
    && Preserved(w.backends, t.backends)
    && t.table == w.table
    && |w.groups| <= |t.groups|
    && (forall h :: 0 <= h < |w.groups| ==> t.groups[h].host == w.groups[h].host && t.groups[h].kind == w.groups[h].kind)
    && (forall h :: 0 <= h < |w.groups| && h != g ==> t.groups[h] == w.groups[h])
    && (forall h: nat, id: nat :: Owned(w, h, id) && h != g && id < |w.backends| ==> t.backends[id] == w.backends[id])
    && (forall id :: |w.backends| <= id < |t.backends| ==> Unused(t.backends[id]))
  }

  /** The list of one group after configs: the configured objects in order, the old ones kept. */
  ghost predicate Configured(before: seq<View>, held: seq<nat>, configs: seq<BackendConfig>, after: seq<View>, ids: seq<nat>) {
    && |ids| == |configs|
    && (forall j :: 0 <= j < |ids| ==>
          var found := FindUrl(before, held, configs[j].url);
          if found.Some? then ids[j] == found.value else ids[j] >= |before|)
    && (DistinctUrls(configs) ==> Reflects(after, ids, configs))
  }

  lemma ApplyBackendsChanges(w: World, g: nat, configs: seq<BackendConfig>)
    requires WellFormed(w) && g < |w.groups|
    ensures var t := ApplyBackends(w, g, configs);
      && WellFormed(t) && OnlyGroup(w, t, g)
      && Configured(w.backends, w.groups[g].backends, configs, t.backends, t.groups[g].backends)
  {
    var held := w.groups[g].backends;
    forall i | 0 <= i < |held|
      ensures held[i] < |w.backends|
    {
      assert Owned(w, g, held[i]);
    }
    ApplyConfigsApplies(w.backends, held, configs);
    var t := ApplyBackends(w, g, configs);
    forall h: nat, id: nat | Owned(w, h, id) && h != g && id < |w.backends|
      ensures t.backends[id] == w.backends[id]
    {
      assert Owned(w, g, id) <==> id in held;
    }
    OwnershipAfter(w, t, g);
  }

  lemma NewGroupChanges(w: World, route: RouteConfig)
    requires WellFormed(w) && Parse(route.host).Ok?
    ensures var t, g := NewGroup(w, route), |w.groups|;
      && WellFormed(t) && OnlyGroup(w, t, g) && |t.groups| == g + 1 && t.groups[g].host == route.host
      && Configured(w.backends, [], route.backends, t.backends, t.groups[g].backends)
  {
    ApplyConfigsApplies(w.backends, [], route.backends);
    OwnershipAfter(w, NewGroup(w, route), |w.groups|);
  }

  /** A group that keeps its own backends and adds new ones takes nothing from the others. */
  lemma OwnershipAfter(w: World, t: World, g: nat)
    requires WellFormed(w) && OnlyGroup(w, t, g) && g < |t.groups| <= |w.groups| + 1 && (g == |w.groups| || |t.groups| == |w.groups|)
    requires forall id :: id in t.groups[g].backends ==> id < |t.backends| && (Owned(w, g, id) || id >= |w.backends|)
    requires Parse(t.groups[g].host) == Ok(t.groups[g].kind)
    ensures WellFormed(t)
  {
    forall h: nat, id: nat | Owned(t, h, id)
      ensures id < |t.backends| && (h != g ==> Owned(w, h, id))
    {
      if h != g {
        assert t.groups[h] == w.groups[h];
        assert Owned(w, h, id);
      }
    }
    forall h: nat, k: nat, id: nat | Owned(t, h, id) && Owned(t, k, id)
      ensures h == k
    {
      if h != g && k != g {
        assert Owned(w, h, id) && Owned(w, k, id);
      }
    }
  }

  // -------------------------------------------------------- reloading the table

  /** A route's group after the reload: found by host among the old groups of the table or new, with its
      list configured from what it held before. */
  ghost predicate Settled(w: World, t: World, g: nat, route: RouteConfig) {
    && g < |t.groups| && t.groups[g].host == route.host
    && (match FindHost(w.groups, w.table, route.host)
        case Some(f) => g == f && Configured(w.backends, w.groups[f].backends, route.backends, t.backends, t.groups[g].backends)
        case None => g >= |w.groups| && Configured(w.backends, [], route.backends, t.backends, t.groups[g].backends))
  }

  /** What a reload keeps: old objects and hosts everywhere, and everything of the groups it did not visit. */
  ghost predicate Kept(w: World, p: Progress) {
    && p.w.table == w.table
    && Preserved(w.backends, p.w.backends)
    && |w.groups| <= |p.w.groups|
    && (forall id :: |w.backends| <= id < |p.w.backends| ==> Unused(p.w.backends[id]))
    && (forall h :: 0 <= h < |w.groups| ==> p.w.groups[h].host == w.groups[h].host)
    && (forall h :: 0 <= h < |w.groups| && h !in p.table ==> p.w.groups[h] == w.groups[h])
    && (forall h: nat, id: nat :: Owned(w, h, id) && h !in p.table && id < |w.backends| ==> p.w.backends[id] == w.backends[id])
  }

  /** g is the group for a host: the table's first with that host, or a new one. */
  ghost predicate Placed(w: World, g: nat, groups: seq<Group>, host: string) {
    && g < |groups| && groups[g].host == host
    && (match FindHost(w.groups, w.table, host)
        case Some(f) => g == f
        case None => g >= |w.groups|)
  }

  ghost predicate Reloaded(w: World, routes: seq<RouteConfig>, p: Progress) {
    && WellFormed(p.w) && Kept(w, p)
    && |p.table| == |routes|
    && (forall i :: 0 <= i < |routes| ==> Placed(w, p.table[i], p.w.groups, routes[i].host))
    && (DistinctHosts(routes) ==> forall i :: 0 <= i < |routes| ==> Settled(w, p.w, p.table[i], routes[i]))
  }

  lemma {:induction false} FindHostStable(before: seq<Group>, after: seq<Group>, table: seq<nat>, host: string)
    requires |before| <= |after| && forall h :: 0 <= h < |before| ==> after[h].host == before[h].host
    requires forall i :: 0 <= i < |table| ==> table[i] < |before|
    ensures FindHost(after, table, host) == FindHost(before, table, host)
  {
    if table != [] {
      FindHostStable(before, after, table[1..], host);
    }
  }

  lemma {:induction false} ApplyRoutesReloads(w: World, routes: seq<RouteConfig>)
    requires WellFormed(w) && AllParse(routes)
    ensures Reloaded(w, routes, ApplyRoutes(w, routes))
  {
    if routes != [] {
      var n := |routes| - 1;
      ApplyRoutesReloads(w, routes[..n]);
      ApplyRouteReloads(w, routes, ApplyRoutes(w, routes[..n]));
      hide ApplyRoute, Reloaded;
    }
  }

  /** A group that another group's reload leaves alone stays as configured. */
  lemma ConfiguredStays(w: World, t: World, g: nat, h: nat, before: seq<View>, held: seq<nat>, configs: seq<BackendConfig>)
    requires WellFormed(w) && OnlyGroup(w, t, g) && h < |w.groups| && h != g
    requires Configured(before, held, configs, w.backends, w.groups[h].backends)
    ensures Configured(before, held, configs, t.backends, t.groups[h].backends)
  {
    var ids := w.groups[h].backends;
    forall j | 0 <= j < |ids|
      ensures ids[j] < |w.backends| && t.backends[ids[j]] == w.backends[ids[j]]
    {
      assert Owned(w, h, ids[j]);
    }
  }

  lemma SettledStays(w: World, p: World, q: World, g: nat, h: nat, route: RouteConfig)
    requires WellFormed(p) && OnlyGroup(p, q, g) && h < |p.groups| && h != g
    requires Settled(w, p, h, route)
    ensures Settled(w, q, h, route)
  {
    match FindHost(w.groups, w.table, route.host) {
      case Some(f) => ConfiguredStays(p, q, g, h, w.backends, w.groups[f].backends, route.backends);
      case None => ConfiguredStays(p, q, g, h, w.backends, [], route.backends);
    }
  }

  /** What a group held can be looked up before or after other groups were reloaded. */
  lemma ConfiguredFrom(before: seq<View>, between: seq<View>, held: seq<nat>, configs: seq<BackendConfig>,
                       after: seq<View>, ids: seq<nat>)
    requires Preserved(before, between) && forall i :: 0 <= i < |held| ==> held[i] < |before|
    requires Configured(between, held, configs, after, ids)
    ensures Configured(before, held, configs, after, ids)
  {
    forall j | 0 <= j < |ids|
      ensures FindUrl(between, held, configs[j].url) == FindUrl(before, held, configs[j].url)
    {
      FindUrlStable(before, between, held, configs[j].url);
    }
  }

  lemma KeptStep(w: World, p: Progress, q: World, g: nat)
    requires Kept(w, p) && OnlyGroup(p.w, q, g)
    ensures Kept(w, Progress(q, p.table + [g]))
  {
    forall h: nat, id: nat | Owned(w, h, id) && h !in p.table + [g] && id < |w.backends|
      ensures q.backends[id] == w.backends[id]
    {
      assert h !in p.table && h != g;
      assert Owned(p.w, h, id);
    }
    forall id | 0 <= id < |w.backends|
      ensures SameRuntime(w.backends[id], q.backends[id])
    {
      assert SameRuntime(w.backends[id], p.w.backends[id]) && SameRuntime(p.w.backends[id], q.backends[id]);
    }
    forall id | |w.backends| <= id < |q.backends|
      ensures Unused(q.backends[id])
    {
      if id < |p.w.backends| {
        assert SameRuntime(p.w.backends[id], q.backends[id]);
      }
    }
  }

  lemma NotVisited(w: World, routes: seq<RouteConfig>, p: Progress, g: nat)
    requires routes != [] && DistinctHosts(routes) && |p.table| == |routes| - 1
    requires forall i :: 0 <= i < |routes| - 1 ==> Placed(w, p.table[i], p.w.groups, routes[i].host)
    requires g < |p.w.groups| ==> p.w.groups[g].host == routes[|routes| - 1].host
    ensures g !in p.table
  {
  }

  lemma AllSettled(w: World, routes: seq<RouteConfig>, p: Progress, q: World, g: nat)
    requires WellFormed(w) && routes != [] && DistinctHosts(routes) && |p.table| == |routes| - 1
    requires WellFormed(p.w) && Kept(w, p) && OnlyGroup(p.w, q, g)
    requires forall i :: 0 <= i < |routes| - 1 ==> Placed(w, p.table[i], p.w.groups, routes[i].host)
    requires forall i :: 0 <= i < |routes| - 1 ==> Settled(w, p.w, p.table[i], routes[i])
    requires Changed(w, p.w, q, g, routes[|routes| - 1])
    ensures forall i :: 0 <= i < |routes| ==> Settled(w, q, (p.table + [g])[i], routes[i])
  {
    hide Configured, WellFormed, OnlyGroup;
    var n := |routes| - 1;
    NotVisited(w, routes, p, g);
    forall i | 0 <= i < |routes|
      ensures Settled(w, q, (p.table + [g])[i], routes[i])
    {
      if i < n {
        SettledStays(w, p.w, q, g, p.table[i], routes[i]);
      } else {
        SettledNow(w, p, q, g, routes[n]);
      }
    }
  }

  /** What handling one route does to the route's group, before it is known that no earlier route had
      the same host. */
  ghost predicate Changed(w: World, p: World, q: World, g: nat, route: RouteConfig) {
    && g < |q.groups| && q.groups[g].host == route.host
    && (g < |p.groups| ==> p.groups[g].host == route.host)
    && (match FindHost(w.groups, w.table, route.host)
        case Some(f) => g == f && f < |p.groups| &&
          Configured(p.backends, p.groups[f].backends, route.backends, q.backends, q.groups[g].backends)
        case None => g >= |w.groups| && Configured(p.backends, [], route.backends, q.backends, q.groups[g].backends))
  }

  lemma RouteChanges(w: World, p: Progress, route: RouteConfig)
    requires WellFormed(w) && WellFormed(p.w) && Kept(w, p) && Parse(route.host).Ok?
    ensures var q := ApplyRoute(p, route);
      && |q.table| == |p.table| + 1
      && var g := q.table[|p.table|];
      && q.table == p.table + [g] && WellFormed(q.w) && OnlyGroup(p.w, q.w, g)
      && Changed(w, p.w, q.w, g, route)
  {
    hide Configured;
    FindHostStable(w.groups, p.w.groups, w.table, route.host);
    var found := FindHost(w.groups, w.table, route.host);
    if found.Some? {
      ApplyBackendsChanges(p.w, found.value, route.backends);
    } else {
      NewGroupChanges(p.w, route);
    }
    hide ApplyBackends, NewGroup, WellFormed, OnlyGroup;
  }

  lemma ApplyRouteReloads(w: World, routes: seq<RouteConfig>, p: Progress)
    requires WellFormed(w) && AllParse(routes) && routes != []
    requires Reloaded(w, routes[..|routes| - 1], p)
    ensures Reloaded(w, routes, ApplyRoute(p, routes[|routes| - 1]))
  {
    hide Configured, WellFormed, Parse, FindHost;
    var n := |routes| - 1;
    RouteChanges(w, p, routes[n]);
    hide ApplyRoute;
    var q := ApplyRoute(p, routes[n]);
    var g := q.table[n];
    assert forall i :: 0 <= i < n ==> routes[..n][i] == routes[i];
    KeptStep(w, p, q.w, g);
    AllPlaced(w, routes, p, q.w, g);
    if DistinctHosts(routes) {
      AllSettled(w, routes, p, q.w, g);
    }
  }

  lemma AllPlaced(w: World, routes: seq<RouteConfig>, p: Progress, q: World, g: nat)
    requires routes != [] && |p.table| == |routes| - 1 && OnlyGroup(p.w, q, g)
    requires forall i :: 0 <= i < |routes| - 1 ==> Placed(w, p.table[i], p.w.groups, routes[i].host)
    requires Changed(w, p.w, q, g, routes[|routes| - 1])
    ensures forall i :: 0 <= i < |routes| ==> Placed(w, (p.table + [g])[i], q.groups, routes[i].host)
  {
    hide Configured, FindHost;
    forall i | 0 <= i < |routes|
      ensures Placed(w, (p.table + [g])[i], q.groups, routes[i].host)
    {
      if i < |routes| - 1 {
        assert Placed(w, p.table[i], p.w.groups, routes[i].host);
      }
    }
  }

  lemma SettledNow(w: World, p: Progress, q: World, g: nat, route: RouteConfig)
    requires WellFormed(w) && Preserved(w.backends, p.w.backends)
    requires |w.groups| <= |p.w.groups| && g < |q.groups| && q.groups[g].host == route.host
    requires match FindHost(w.groups, w.table, route.host)
      case Some(f) => g == f && p.w.groups[f] == w.groups[f]
        && Configured(p.w.backends, w.groups[f].backends, route.backends, q.backends, q.groups[g].backends)
      case None => g >= |w.groups| && Configured(p.w.backends, [], route.backends, q.backends, q.groups[g].backends)
    ensures Settled(w, q, g, route)
  {
    match FindHost(w.groups, w.table, route.host) {
      case Some(f) =>
        var held := w.groups[f].backends;
        assert forall i :: 0 <= i < |held| ==> Owned(w, f, held[i]);
        ConfiguredFrom(w.backends, p.w.backends, held, route.backends, q.backends, q.groups[g].backends);
      case None =>
        ConfiguredFrom(w.backends, p.w.backends, [], route.backends, q.backends, q.groups[g].backends);
    }
  }

  // ------------------------------------------------------------ main results

  /** The table shows the config: hosts, URLs, caps and drain flags, all in order. */
  ghost predicate Shows(w: World, routes: seq<RouteConfig>) {
    |w.table| == |routes| && forall i :: 0 <= i < |routes| ==>
      w.table[i] < |w.groups| && w.groups[w.table[i]].host == routes[i].host
      && Reflects(w.backends, w.groups[w.table[i]].backends, routes[i].backends)
  }

  /** A reload is all or nothing: one bad host and nothing changes; otherwise, with distinct hosts and
      URLs, the table shows exactly the config. */
  lemma ReloadIsAllOrNothing(w: World, routes: seq<RouteConfig>)
    requires WellFormed(w)
    ensures !AllParse(routes) ==> ApplyConfig(w, routes) == w
    ensures AllParse(routes) && Distinct(routes) ==> Shows(ApplyConfig(w, routes), routes)
    ensures WellFormed(ApplyConfig(w, routes))
  {
    if AllParse(routes) {
      ApplyRoutesReloads(w, routes);
      var p := ApplyRoutes(w, routes);
      var t := ApplyConfig(w, routes);
      if Distinct(routes) {
        forall i | 0 <= i < |routes|
          ensures Reflects(t.backends, t.groups[t.table[i]].backends, routes[i].backends)
        {
          assert Settled(w, p.w, p.table[i], routes[i]);
        }
      }
      assert forall g: nat, id: nat :: Owned(t, g, id) ==> Owned(p.w, g, id);
    }
  }

  /** A reload preserves identity: every object, listed or not, keeps its connections, health and error
      count, new ones start unused, and a (host, URL) pair that was in the table and still is keeps its object. */
  lemma SurvivorsKeepTheirObjects(w: World, routes: seq<RouteConfig>, i: nat, j: nat, f: nat, id: nat)
    requires WellFormed(w) && AllParse(routes) && DistinctHosts(routes)
    requires i < |routes| && j < |routes[i].backends|
    requires FindHost(w.groups, w.table, routes[i].host) == Some(f)
    requires FindUrl(w.backends, w.groups[f].backends, routes[i].backends[j].url) == Some(id)
    ensures var t := ApplyConfig(w, routes);
      && |t.table| == |routes| && t.table[i] == f && f < |t.groups|
      && |t.groups[f].backends| == |routes[i].backends| && t.groups[f].backends[j] == id
      && id < |t.backends| && SameRuntime(w.backends[id], t.backends[id])
  {
    ApplyRoutesReloads(w, routes);
    var p := ApplyRoutes(w, routes);
    assert Settled(w, p.w, p.table[i], routes[i]);
  }

  lemma ReloadPreservesObjects(w: World, routes: seq<RouteConfig>)
    requires WellFormed(w)
    ensures var t := ApplyConfig(w, routes);
      && Preserved(w.backends, t.backends)
      && forall id :: |w.backends| <= id < |t.backends| ==> Unused(t.backends[id])
  {
    if AllParse(routes) {
      ApplyRoutesReloads(w, routes);
    }
  }

  // ---------------------------------------------------------------- idempotence

  lemma {:induction false} FindUrlAt(backends: seq<View>, ids: seq<nat>, configs: seq<BackendConfig>, j: nat)
    requires Reflects(backends, ids, configs) && DistinctUrls(configs) && j < |ids|
    ensures FindUrl(backends, ids, configs[j].url) == Some(ids[j])
  {
    if j > 0 {
      assert backends[ids[0]].url == configs[0].url != configs[j].url;
      FindUrlAt(backends, ids[1..], configs[1..], j - 1);
    }
  }

  lemma {:induction false} ReapplyConfigs(backends: seq<View>, ids: seq<nat>, configs: seq<BackendConfig>, k: nat)
    requires Reflects(backends, ids, configs) && DistinctUrls(configs) && k <= |configs|
    ensures ApplyConfigs(backends, ids, configs[..k]) == Built(backends, ids[..k])
  {
    if k > 0 {
      hide FindUrl, ApplyOne, DistinctUrls;
      var j := k - 1;
      ReapplyConfigs(backends, ids, configs, j);
      ReapplyOne(backends, ids, configs, j);
      ApplyConfigsSnoc(backends, ids, configs[..j], configs[j]);
      hide ApplyConfigs;
      assert configs[..k] == configs[..j] + [configs[j]];
    }
  }

  lemma ReapplyOne(backends: seq<View>, ids: seq<nat>, configs: seq<BackendConfig>, j: nat)
    requires Reflects(backends, ids, configs) && DistinctUrls(configs) && j < |configs|
    ensures ApplyOne(Built(backends, ids[..j]), ids, configs[j]) == Built(backends, ids[..j + 1])
  {
    hide FindUrl;
    FindUrlAt(backends, ids, configs, j);
    assert ids[..j + 1] == ids[..j] + [ids[j]];
  }

  lemma {:induction false} FindHostAt(groups: seq<Group>, table: seq<nat>, routes: seq<RouteConfig>, i: nat)
    requires |table| == |routes| && i < |routes| && DistinctHosts(routes)
    requires forall k :: 0 <= k < |routes| ==> table[k] < |groups| && groups[table[k]].host == routes[k].host
    ensures FindHost(groups, table, routes[i].host) == Some(table[i])
  {
    if i > 0 {
      assert groups[table[0]].host == routes[0].host != routes[i].host;
      FindHostAt(groups, table[1..], routes[1..], i - 1);
    }
  }

  lemma ReapplyBackends(w: World, g: nat, configs: seq<BackendConfig>)
    requires g < |w.groups| && DistinctUrls(configs) && Reflects(w.backends, w.groups[g].backends, configs)
    ensures ApplyBackends(w, g, configs) == w
  {
    var ids := w.groups[g].backends;
    ReapplyConfigs(w.backends, ids, configs, |configs|);
    assert configs[..|configs|] == configs && ids[..|configs|] == ids;
  }

  lemma ReapplyRoute(w: World, routes: seq<RouteConfig>, i: nat, table: seq<nat>)
    requires Shows(w, routes) && AllParse(routes) && Distinct(routes) && i < |routes|
    ensures ApplyRoute(Progress(w, table), routes[i]) == Progress(w, table + [w.table[i]])
  {
    FindHostAt(w.groups, w.table, routes, i);
    ReapplyBackends(w, w.table[i], routes[i].backends);
    hide ApplyBackends, NewGroup;
  }

  lemma ApplyRoutesSnoc(w: World, routes: seq<RouteConfig>, route: RouteConfig)
    requires AllParse(routes) && Parse(route.host).Ok?
    ensures AllParse(routes + [route]) && ApplyRoutes(w, routes + [route]) == ApplyRoute(ApplyRoutes(w, routes), route)
  {
    hide ApplyRoute, Parse;
    assert (routes + [route])[..|routes|] == routes;
  }

  lemma {:induction false} ReapplyRoutes(w: World, routes: seq<RouteConfig>, k: nat)
    requires Shows(w, routes) && AllParse(routes) && Distinct(routes) && k <= |routes| == |w.table|
    ensures ApplyRoutes(w, routes[..k]) == Progress(w, w.table[..k])
  {
    hide ApplyRoute, Shows, Distinct, Parse;
    if k > 0 {
      var i := k - 1;
      ReapplyRoutes(w, routes, i);
      ReapplyRoute(w, routes, i, w.table[..i]);
      ApplyRoutesSnoc(w, routes[..i], routes[i]);
      hide ApplyRoutes;
      assert routes[..k] == routes[..i] + [routes[i]];
      assert w.table[..k] == w.table[..i] + [w.table[i]];
    }
  }

  /** Re-applying the same config changes nothing. */
  lemma ReapplyingIsIdentity(w: World, routes: seq<RouteConfig>)
    requires WellFormed(w) && Distinct(routes)
    ensures ApplyConfig(ApplyConfig(w, routes), routes) == ApplyConfig(w, routes)
  {
    if AllParse(routes) {
      ReloadIsAllOrNothing(w, routes);
      var t := ApplyConfig(w, routes);
      ReapplyRoutes(t, routes, |routes|);
      assert routes[..|routes|] == routes && t.table[..|routes|] == t.table;
    }
  }
}