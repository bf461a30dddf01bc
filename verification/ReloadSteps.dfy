/** A reload as the single stores it consists of, in the order of apply_config and apply_backends in
    src/backends.rs, in between the steps of requests and health checks. */
module ReloadSteps {
  import opened Hosts
  import opened Selection
  import opened Registry
  import opened Requests

  // ------------------------------------------------------------- the single steps

  function ConfigSteps(b: Built, held: seq<nat>, c: BackendConfig): seq<Action> {
    var found := FindUrl(b.backends, held, c.url);
    if found.Some? then [StoreMax(found.value, c.maxConnections), StoreDrain(found.value, c.drain)]
    else [AddBackend(c)]
  }

  function ConfigsSteps(backends: seq<View>, held: seq<nat>, configs: seq<BackendConfig>): seq<Action> {
    if configs == [] then []
    else
      var n := |configs| - 1;
      ConfigsSteps(backends, held, configs[..n])
      + ConfigSteps(ApplyConfigs(backends, held, configs[..n]), held, configs[n])
  }

  function RouteSteps(p: Progress, route: RouteConfig): seq<Action>
    requires Parse(route.host).Ok?
  {
    var found := FindHost(p.w.groups, p.w.table, route.host);
    var held := if found.Some? then p.w.groups[found.value].backends else [];
    var ids := ApplyConfigs(p.w.backends, held, route.backends).ids;
    ConfigsSteps(p.w.backends, held, route.backends)
    + [if found.Some? then SetList(found.value, ids) else AddGroup(Group(route.host, Parse(route.host).value, ids))]
  }

  function RoutesSteps(w: World, routes: seq<RouteConfig>): seq<Action>
    requires AllParse(routes)
  {
    if routes == [] then []
    else
      var n := |routes| - 1;
      RoutesSteps(w, routes[..n]) + RouteSteps(ApplyRoutes(w, routes[..n]), routes[n])
  }

  /** What a reload does to a registry, one step after the other; nothing if a host does not parse. */
  function ReloadSteps(w: World, routes: seq<RouteConfig>): seq<Action> {
    if AllParse(routes) then RoutesSteps(w, routes) + [SetTable(ApplyRoutes(w, routes).table)] else []
  }

  lemma ExecOne(s: State, a: Action)
    ensures Exec(s, [a]) == Next(s, a)
  {
    hide Next;
    assert [a][1..] == [];
    assert Exec(Next(s, a), []) == Next(s, a);
  }

  lemma ConfigStepsApply(s: State, ids: seq<nat>, held: seq<nat>, c: BackendConfig)
    ensures var b := Built(s.w.backends, ids);
      Exec(s, ConfigSteps(b, held, c)) == s.(w := s.w.(backends := ApplyOne(b, held, c).backends))
  {
    var b := Built(s.w.backends, ids);
    var found := FindUrl(b.backends, held, c.url);
    hide FindUrl, Exec, Next;
    if found.Some? {
      var first, second := StoreMax(found.value, c.maxConnections), StoreDrain(found.value, c.drain);
      ExecOne(s, first);
      ExecOne(Next(s, first), second);
      ExecConcat(s, [first], [second]);
      assert ConfigSteps(b, held, c) == [first] + [second];
      StoresStep(s, found.value, c);
    } else {
      ExecOne(s, AddBackend(c));
      AddBackendStep(s, c);
    }
  }

  lemma AddBackendStep(s: State, c: BackendConfig)
    ensures Next(s, AddBackend(c)) == s.(w := s.w.(backends := s.w.backends + [NewView(c)]))
  {
  }

  lemma StoresStep(s: State, id: nat, c: BackendConfig)
    requires id < |s.w.backends|
    ensures Next(Next(s, StoreMax(id, c.maxConnections)), StoreDrain(id, c.drain))
         == s.(w := Touched(s.w, id, s.w.backends[id].(max := c.maxConnections, drain := c.drain)))
  {
  }

  lemma {:induction false} ConfigsStepsApply(s: State, held: seq<nat>, configs: seq<BackendConfig>)
    ensures Exec(s, ConfigsSteps(s.w.backends, held, configs))
         == s.(w := s.w.(backends := ApplyConfigs(s.w.backends, held, configs).backends))
  {
    hide ConfigSteps, ApplyOne, Next;
    if configs != [] {
      var n := |configs| - 1;
      var b := ApplyConfigs(s.w.backends, held, configs[..n]);
      ConfigsStepsApply(s, held, configs[..n]);
      ConfigStepsApply(s.(w := s.w.(backends := b.backends)), b.ids, held, configs[n]);
      ExecConcat(s, ConfigsSteps(s.w.backends, held, configs[..n]), ConfigSteps(b, held, configs[n]));
      hide Exec;
    }
  }

  lemma RouteStepsApply(s: State, p: Progress, route: RouteConfig)
    requires s.w == p.w && Parse(route.host).Ok?
    ensures Exec(s, RouteSteps(p, route)) == s.(w := ApplyRoute(p, route).w)
  {
    hide ConfigsSteps, ApplyConfigs, Parse, Exec;
    var found := FindHost(p.w.groups, p.w.table, route.host);
    var held := if found.Some? then p.w.groups[found.value].backends else [];
    var built := ApplyConfigs(p.w.backends, held, route.backends);
    var last := if found.Some? then SetList(found.value, built.ids)
                else AddGroup(Group(route.host, Parse(route.host).value, built.ids));
    ConfigsStepsApply(s, held, route.backends);
    ExecConcat(s, ConfigsSteps(p.w.backends, held, route.backends), [last]);
    ExecOne(s.(w := s.w.(backends := built.backends)), last);
  }

  lemma {:induction false} RoutesStepsApply(s: State, routes: seq<RouteConfig>)
    requires AllParse(routes)
    ensures Exec(s, RoutesSteps(s.w, routes)) == s.(w := ApplyRoutes(s.w, routes).w)
  {
    hide RouteSteps, ApplyRoute, Parse, Next;
    if routes != [] {
      var n := |routes| - 1;
      var p := ApplyRoutes(s.w, routes[..n]);
      RoutesStepsApply(s, routes[..n]);
      RouteStepsApply(s.(w := p.w), p, routes[n]);
      ExecConcat(s, RoutesSteps(s.w, routes[..n]), RouteSteps(p, routes[n]));
      hide Exec;
    }
  }

  /** Undisturbed, the steps of a reload are apply_config, and no request moves. */
  lemma ReloadStepsApply(s: State, routes: seq<RouteConfig>)
    ensures Exec(s, ReloadSteps(s.w, routes)) == s.(w := ApplyConfig(s.w, routes))
  {
    hide AllParse, RoutesSteps, ApplyRoutes;
    if AllParse(routes) {
      hide Exec, Next;
      var p := ApplyRoutes(s.w, routes);
      RoutesStepsApply(s, routes);
      ExecConcat(s, RoutesSteps(s.w, routes), [SetTable(p.table)]);
      ExecOne(s.(w := p.w), SetTable(p.table));
      SetTableStep(s.(w := p.w), p.table);
    }
  }

  lemma SetTableStep(s: State, ids: seq<nat>)
    ensures Next(s, SetTable(ids)) == s.(w := s.w.(table := ids))
  {
  }

  // ------------------------------------- in between requests and health checks

  predicate OfReload(a: Action) {
    a.StoreMax? || a.StoreDrain? || a.AddBackend? || a.AddGroup? || a.SetList? || a.SetTable?
  }

  function ReloadPart(schedule: seq<Action>): seq<Action> {
    if schedule == [] then []
    else (if OfReload(schedule[0]) then [schedule[0]] else []) + ReloadPart(schedule[1..])
  }

  function Setting(v: View): View { v.(active := 0, healthy := true) }

  /** The registry without connection counts and health. */
  function Settings(w: World): (t: World)
    ensures |t.backends| == |w.backends| && forall i :: 0 <= i < |w.backends| ==> t.backends[i] == Setting(w.backends[i])
    ensures t == w.(backends := t.backends)
  {
    w.(backends := seq(|w.backends|, i requires 0 <= i < |w.backends| => Setting(w.backends[i])))
  }

  /** Requests and health checks leave the settings alone. */
  lemma TrafficKeepsSettings(s: State, a: Action)
    requires !OfReload(a)
    ensures Settings(Next(s, a).w) == Settings(s.w)
  {
    hide ScanStep, Route, Settings;
    var after := Next(s, a).w;
    assert Settings(after).backends == Settings(s.w).backends;
  }

  /** The steps of a reload do not look at counts and health. */
  lemma ReloadSeesSettings(s: State, t: State, a: Action)
    requires OfReload(a) && Settings(s.w) == Settings(t.w)
    ensures Settings(Next(s, a).w) == Settings(Next(t, a).w)
  {
    hide Settings;
    assert |s.w.backends| == |Settings(s.w).backends| == |t.w.backends|;
    assert s.w.groups == Settings(s.w).groups == t.w.groups;
    assert s.w.table == Settings(s.w).table == t.w.table;
    var u, v := Next(s, a).w, Next(t, a).w;
    assert forall i :: 0 <= i < |s.w.backends| ==> Settings(s.w).backends[i] == Setting(s.w.backends[i]) == Setting(t.w.backends[i]);
    assert Settings(u).backends == Settings(v).backends;
  }

  lemma {:induction false} OnlyReloadsSet(s: State, t: State, schedule: seq<Action>)
    requires Settings(s.w) == Settings(t.w)
    ensures Settings(Exec(s, schedule).w) == Settings(Exec(t, ReloadPart(schedule)).w)
    decreases |schedule|
  {
    hide Settings, Next, OfReload;
    if schedule != [] {
      var a := schedule[0];
      if OfReload(a) {
        ReloadSeesSettings(s, t, a);
        OnlyReloadsSet(Next(s, a), Next(t, a), schedule[1..]);
        assert ([a] + ReloadPart(schedule[1..]))[1..] == ReloadPart(schedule[1..]);
      } else {
        TrafficKeepsSettings(s, a);
        OnlyReloadsSet(Next(s, a), t, schedule[1..]);
        assert [] + ReloadPart(schedule[1..]) == ReloadPart(schedule[1..]);
      }
    }
  }

  lemma SettingsFix(w: World, t: World)
    requires Settings(w) == Settings(t)
    ensures |w.backends| == |t.backends| && w.groups == t.groups && w.table == t.table
    ensures forall i :: 0 <= i < |w.backends| ==> Setting(w.backends[i]) == Setting(t.backends[i])
  {
    hide Settings;
    assert |w.backends| == |Settings(w).backends| == |t.backends|;
    assert w.groups == Settings(w).groups == t.groups;
    assert w.table == Settings(w).table == t.table;
    forall i | 0 <= i < |w.backends|
      ensures Setting(w.backends[i]) == Setting(t.backends[i])
    {
      assert Settings(w).backends[i] == Setting(w.backends[i]) && Settings(t).backends[i] == Setting(t.backends[i]);
    }
  }

  lemma WellFormedIsSettings(w: World, t: World)
    requires Settings(w) == Settings(t) && WellFormed(w)
    ensures WellFormed(t)
  {
    hide Settings, Parse;
    SettingsFix(w, t);
    assert forall g: nat, id: nat :: Owned(t, g, id) <==> Owned(w, g, id);
  }

  lemma ShowsIsSettings(w: World, t: World, routes: seq<RouteConfig>)
    requires Settings(w) == Settings(t) && Shows(w, routes)
    ensures Shows(t, routes)
  {
    hide Settings;
    SettingsFix(w, t);
  }

  /** However the steps of one reload are interleaved with requests, guard drops and health flips: afterwards
      the table shows the config, just as if the reload had run alone. */
  lemma ReloadAmidTraffic(s: State, schedule: seq<Action>, routes: seq<RouteConfig>)
    requires ReloadPart(schedule) == ReloadSteps(s.w, routes)
    ensures Settings(Exec(s, schedule).w) == Settings(ApplyConfig(s.w, routes))
    ensures WellFormed(s.w) ==> WellFormed(Exec(s, schedule).w)
    ensures WellFormed(s.w) && AllParse(routes) && Distinct(routes) ==> Shows(Exec(s, schedule).w, routes)
  {
    hide Settings, Exec, ReloadSteps, ApplyConfig, WellFormed, Shows, Distinct, AllParse;
    OnlyReloadsSet(s, s, schedule);
    ReloadStepsApply(s, routes);
    if WellFormed(s.w) {
      ReloadIsAllOrNothing(s.w, routes);
      WellFormedIsSettings(ApplyConfig(s.w, routes), Exec(s, schedule).w);
      if AllParse(routes) && Distinct(routes) {
        ShowsIsSettings(ApplyConfig(s.w, routes), Exec(s, schedule).w, routes);
      }
    }
  }
}
