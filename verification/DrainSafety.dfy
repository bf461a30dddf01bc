/** What draining is for, across the parts: once tinylb has loaded a config in which a URL is drained, no
    request that selects a backend later is sent to that URL, so nothing new reaches a backend being restarted. */
module DrainSafety {
  import opened Prelude
  import opened Hosts
  import opened Selection
  import opened Registry
  import opened Requests
  import opened ReloadSteps
  import opened Rolling
  import opened RollingRuns
  import opened RollingUpdate
  import Containers

  /** An object that may be handed out has another URL, and one that may be looked at is drained otherwise. */
  predicate Other(w: World, id: nat, url: string) { id < |w.backends| && w.backends[id].url != url }

  predicate OtherOrDrained(w: World, id: nat, url: string) {
    id < |w.backends| && (w.backends[id].url == url ==> w.backends[id].drain)
  }

  predicate ListIsSafe(w: World, list: seq<nat>, url: string) {
    forall j :: 0 <= j < |list| ==> OtherOrDrained(w, list[j], url)
  }

  /** In every group of the table each object with the URL is drained. */
  predicate DrainedInTable(w: World, url: string) {
    forall i :: 0 <= i < |w.table| ==> w.table[i] < |w.groups| && ListIsSafe(w, w.groups[w.table[i]].backends, url)
  }

  // ------------------------------------------------- what loading a drain does

  /** Objects stay, keep their URLs, and none with this URL is undrained. */
  predicate NoneUndrained(before: seq<View>, after: seq<View>, url: string) {
    |before| <= |after| && forall id :: 0 <= id < |before| ==>
      after[id].url == before[id].url && (before[id].url == url && before[id].drain ==> after[id].drain)
  }

  predicate ListDrained(backends: seq<View>, list: seq<nat>, url: string) {
    forall j :: 0 <= j < |list| ==> list[j] < |backends| && (backends[list[j]].url == url ==> backends[list[j]].drain)
  }

  predicate ConfigsDrained(configs: seq<BackendConfig>, url: string) {
    forall j :: 0 <= j < |configs| && configs[j].url == url ==> configs[j].drain
  }

  lemma ListStaysDrained(before: seq<View>, after: seq<View>, list: seq<nat>, url: string)
    requires NoneUndrained(before, after, url) && ListDrained(before, list, url)
    ensures ListDrained(after, list, url)
  {
  }

  lemma ApplyOneDrains(b: Built, held: seq<nat>, c: BackendConfig, url: string)
    requires ListDrained(b.backends, b.ids, url) && (c.url == url ==> c.drain)
    ensures var t := ApplyOne(b, held, c);
      NoneUndrained(b.backends, t.backends, url) && ListDrained(t.backends, t.ids, url)
  {
    hide FindUrl;
    var t := ApplyOne(b, held, c);
    ListStaysDrained(b.backends, t.backends, b.ids, url);
    assert forall j :: 0 <= j < |b.ids| ==> t.ids[j] == b.ids[j];
  }

  /** Even while the configs are applied, with URLs repeated or not. */
  lemma {:induction false} ApplyConfigsDrains(backends: seq<View>, held: seq<nat>, configs: seq<BackendConfig>, url: string)
    requires ConfigsDrained(configs, url)
    ensures var b := ApplyConfigs(backends, held, configs);
      NoneUndrained(backends, b.backends, url) && ListDrained(b.backends, b.ids, url)
  {
    hide ApplyOne;
    if configs != [] {
      var n := |configs| - 1;
      ApplyConfigsDrains(backends, held, configs[..n], url);
      ApplyOneDrains(ApplyConfigs(backends, held, configs[..n]), held, configs[n], url);
      hide ApplyConfigs;
    }
  }

  /** The groups visited so far have the URL drained, and no object of it has been undrained. */
  predicate TableDrained(p: Progress, url: string) {
    forall i :: 0 <= i < |p.table| ==>
      p.table[i] < |p.w.groups| && ListDrained(p.w.backends, p.w.groups[p.table[i]].backends, url)
  }

  lemma ApplyRouteDrains(p: Progress, route: RouteConfig, url: string)
    requires Parse(route.host).Ok? && ConfigsDrained(route.backends, url) && TableDrained(p, url)
    ensures var q := ApplyRoute(p, route);
      NoneUndrained(p.w.backends, q.w.backends, url) && TableDrained(q, url)
  {
    hide Parse, ApplyConfigs, FindHost, ListDrained;
    var found := FindHost(p.w.groups, p.w.table, route.host);
    var held := if found.Some? then p.w.groups[found.value].backends else [];
    ApplyConfigsDrains(p.w.backends, held, route.backends, url);
    var q := ApplyRoute(p, route);
    forall i | 0 <= i < |p.table|
      ensures q.table[i] < |q.w.groups| && ListDrained(q.w.backends, q.w.groups[q.table[i]].backends, url)
    {
      ListStaysDrained(p.w.backends, q.w.backends, p.w.groups[p.table[i]].backends, url);
    }
  }

  lemma {:induction false} ApplyRoutesDrains(w: World, routes: seq<RouteConfig>, url: string)
    requires AllParse(routes) && forall i :: 0 <= i < |routes| ==> ConfigsDrained(routes[i].backends, url)
    ensures var p := ApplyRoutes(w, routes);
      NoneUndrained(w.backends, p.w.backends, url) && TableDrained(p, url)
  {
    hide ApplyRoute, Parse, ConfigsDrained, TableDrained;
    if routes != [] {
      var n := |routes| - 1;
      ApplyRoutesDrains(w, routes[..n], url);
      ApplyRouteDrains(ApplyRoutes(w, routes[..n]), routes[n], url);
      hide ApplyRoutes;
    } else {
      EmptyTableDrained(w, url);
    }
  }

  lemma EmptyTableDrained(w: World, url: string)
    ensures TableDrained(Progress(w, []), url)
  {
  }

  /** Loading a config that has the URL drained wherever it occurs undrains no object of it, and drains every one
      listed. Nothing is asked of the registry, and hosts and URLs may repeat. */
  lemma LoadedDrains(w: World, c: Config, url: string)
    requires AllParse(c) && (Occurs(c, url) ==> IsDrained(c, url))
    ensures DrainedInTable(ApplyConfig(w, c), url) && NoneUndrained(w.backends, ApplyConfig(w, c).backends, url)
  {
    forall i | 0 <= i < |c|
      ensures ConfigsDrained(c[i].backends, url)
    {
      forall j | 0 <= j < |c[i].backends| && c[i].backends[j].url == url
        ensures c[i].backends[j].drain
      {
        assert Occurs(c, url);
      }
    }
    ApplyRoutesDrains(w, c, url);
    hide ApplyRoutes, AllParse;
    var p, t := ApplyRoutes(w, c), ApplyConfig(w, c);
    forall i | 0 <= i < |t.table|
      ensures t.table[i] < |t.groups| && ListIsSafe(t, t.groups[t.table[i]].backends, url)
    {
      assert ListDrained(p.w.backends, p.w.groups[p.table[i]].backends, url);
    }
  }

  lemma DrainedInSettings(w: World, t: World, url: string)
    requires Settings(w) == Settings(t) && DrainedInTable(w, url)
    ensures DrainedInTable(t, url)
  {
    hide Settings;
    SettingsFix(w, t);
    forall i | 0 <= i < |t.table|
      ensures t.table[i] < |t.groups| && ListIsSafe(t, t.groups[t.table[i]].backends, url)
    {
      assert ListIsSafe(w, w.groups[w.table[i]].backends, url);
      assert forall j :: 0 <= j < |w.groups[w.table[i]].backends| ==> OtherOrDrained(w, w.groups[w.table[i]].backends[j], url);
    }
  }

  /** A config that the table already shows drains what it lists as well. */
  lemma ShownDrains(w: World, c: Config, url: string)
    requires Shows(w, c) && IsDrained(c, url)
    ensures DrainedInTable(w, url)
  {
    forall i | 0 <= i < |w.table|
      ensures w.table[i] < |w.groups| && ListIsSafe(w, w.groups[w.table[i]].backends, url)
    {
      var list := w.groups[w.table[i]].backends;
      assert Reflects(w.backends, list, c[i].backends);
      forall j | 0 <= j < |list|
        ensures OtherOrDrained(w, list[j], url)
      {
        assert w.backends[list[j]].url == c[i].backends[j].url && w.backends[list[j]].drain == c[i].backends[j].drain;
      }
    }
  }

  // ------------------------------------------------ requests that arrive later

  /** The request is not on its way to the URL and cannot get there in its current scan. */
  predicate Away(w: World, pc: Pc, url: string) {
    match pc
    case Idle => true
    case Routed(g) => g < |w.groups| && ListIsSafe(w, w.groups[g].backends, url)
    case At(list, best, _) => ListIsSafe(w, list, url) && (best.Some? ==> Other(w, best.value, url))
    case Undrained(list, best, _) => PastDrain(w, list, best, url)
    case Sound(list, best, _) => PastDrain(w, list, best, url)
    case Counted(_, list, best, _) => PastDrain(w, list, best, url)
    case Chosen(id) => Other(w, id, url)
    case Guarded(id) => Other(w, id, url)
  }

  predicate PastDrain(w: World, list: seq<nat>, best: Option<nat>, url: string) {
    ListIsSafe(w, list, url) && (list != [] ==> Other(w, list[0], url)) && (best.Some? ==> Other(w, best.value, url))
  }

  /** From w to t the table lists the same objects, and none with the URL was undrained. */
  predicate KeepsDrained(w: World, t: World, url: string) {
    && t.table == w.table && t.groups == w.groups && |t.backends| == |w.backends|
    && forall id :: 0 <= id < |w.backends| ==>
         t.backends[id].url == w.backends[id].url
         && (w.backends[id].url == url && w.backends[id].drain ==> t.backends[id].drain)
  }

  /** All along the run. */
  predicate KeepsDrainedRun(s: State, schedule: seq<Action>, url: string)
    decreases |schedule|
  {
    schedule != [] ==> KeepsDrained(s.w, Next(s, schedule[0]).w, url) && KeepsDrainedRun(Next(s, schedule[0]), schedule[1..], url)
  }

  lemma TrafficKeepsDrained(s: State, a: Action, url: string)
    requires !OfReload(a)
    ensures KeepsDrained(s.w, Next(s, a).w, url)
  {
    hide ScanStep, Route;
  }

  /** Requests, guard drops and health checks undrain nothing. */
  lemma {:induction false} TrafficKeepsDrainedRun(s: State, schedule: seq<Action>, url: string)
    requires forall i :: 0 <= i < |schedule| ==> !OfReload(schedule[i])
    ensures KeepsDrainedRun(s, schedule, url)
    decreases |schedule|
  {
    hide Next, OfReload, KeepsDrained;
    if schedule != [] {
      TrafficKeepsDrained(s, schedule[0], url);
      TrafficKeepsDrainedRun(Next(s, schedule[0]), schedule[1..], url);
    }
  }

  lemma ListStaysSafe(w: World, t: World, list: seq<nat>, url: string)
    requires KeepsDrained(w, t, url) && ListIsSafe(w, list, url)
    ensures ListIsSafe(t, list, url)
  {
    forall j | 0 <= j < |list|
      ensures OtherOrDrained(t, list[j], url)
    {
      assert OtherOrDrained(w, list[j], url);
    }
  }

  lemma AwayStays(w: World, t: World, pc: Pc, url: string)
    requires KeepsDrained(w, t, url) && Away(w, pc, url)
    ensures Away(t, pc, url)
  {
    match pc {
      case Routed(g) => ListStaysSafe(w, t, w.groups[g].backends, url);
      case At(list, _, _) => ListStaysSafe(w, t, list, url);
      case Undrained(list, _, _) => ListStaysSafe(w, t, list, url);
      case Sound(list, _, _) => ListStaysSafe(w, t, list, url);
      case Counted(_, list, _, _) => ListStaysSafe(w, t, list, url);
      case _ =>
    }
  }

  lemma SafeTail(w: World, list: seq<nat>, url: string)
    requires ListIsSafe(w, list, url) && list != []
    ensures ListIsSafe(w, list[1..], url) && OtherOrDrained(w, list[0], url)
  {
    forall j | 0 <= j < |list| - 1
      ensures OtherOrDrained(w, list[1..][j], url)
    {
      assert list[1..][j] == list[j + 1];
    }
  }

  lemma AwayScans(w: World, pc: Pc, url: string)
    requires Away(w, pc, url)
    ensures Away(w, ScanStep(w, pc), url)
  {
    hide ListIsSafe;
    match pc {
      case At(list, _, _) => if list != [] { SafeTail(w, list, url); }
      case Undrained(list, _, _) => if list != [] { SafeTail(w, list, url); }
      case Counted(_, list, _, _) => if list != [] { SafeTail(w, list, url); }
      case _ =>
    }
  }

  lemma AwayRoutes(w: World, host: string, url: string)
    requires DrainedInTable(w, url)
    ensures Away(w, Route(w, host), url)
  {
    hide ListIsSafe;
  }

  /** The own step of a request, seen from the registry before it. */
  lemma AwayMoves(s: State, a: Action, t: nat, url: string)
    requires DrainedInTable(s.w, url) && t < |s.threads| && Away(s.w, s.threads[t], url)
    ensures |Next(s, a).threads| == |s.threads| && Away(s.w, Next(s, a).threads[t], url)
  {
    match a {
      case Arrive(u, host) =>
        AwayRoutes(s.w, host, url);
        hide Route, Away;
      case Step(u) =>
        AwayScans(s.w, s.threads[t], url);
        hide ScanStep, Away;
      case _ =>
    }
  }

  lemma TableStaysDrained(w: World, t: World, url: string)
    requires KeepsDrained(w, t, url) && DrainedInTable(w, url)
    ensures DrainedInTable(t, url)
  {
    forall i | 0 <= i < |t.table|
      ensures t.table[i] < |t.groups| && ListIsSafe(t, t.groups[t.table[i]].backends, url)
    {
      ListStaysSafe(w, t, w.groups[w.table[i]].backends, url);
    }
  }

  /** No select_backend call of a request that arrives while the URL is drained returns it. */
  lemma {:induction false} DrainedUrlIsNeverChosen(s: State, schedule: seq<Action>, t: nat, url: string)
    requires DrainedInTable(s.w, url) && KeepsDrainedRun(s, schedule, url)
    requires t < |s.threads| && Away(s.w, s.threads[t], url)
    ensures var e := Exec(s, schedule);
      t < |e.threads| && Away(e.w, e.threads[t], url)
    decreases |schedule|
  {
    hide Away, DrainedInTable, Next, KeepsDrained;
    if schedule != [] {
      var s' := Next(s, schedule[0]);
      AwayMoves(s, schedule[0], t, url);
      AwayStays(s.w, s'.w, s'.threads[t], url);
      TableStaysDrained(s.w, s'.w, url);
      DrainedUrlIsNeverChosen(s', schedule[1..], t, url);
    }
  }

  /** The request holds or is about to take a connection to the URL. */
  predicate Uses(w: World, pc: Pc, url: string) {
    (pc.Chosen? || pc.Guarded?) && (pc.id < |w.backends| ==> w.backends[pc.id].url == url)
  }

  /** When the load is over request t has not arrived or not begun its selection, in a group that is still listed,
      and from then on the URL is not undrained. */
  predicate SelectsAfter(s: State, loading: seq<Action>, later: seq<Action>, t: nat, url: string) {
    var e := Exec(s, loading);
    && t < |e.threads| && KeepsDrainedRun(e, later, url)
    && (e.threads[t].Idle? || (e.threads[t].Routed? && e.threads[t].group in e.w.table))
  }

  lemma YetToSelect(w: World, pc: Pc, url: string)
    requires DrainedInTable(w, url) && (pc.Idle? || (pc.Routed? && pc.group in w.table))
    ensures Away(w, pc, url)
  {
  }

  /** A config with the URL drained is loaded amid traffic; a request that selects its backend afterwards does not
      use the URL for as long as it is not undrained. */
  lemma DrainTakesEffect(s: State, loading: seq<Action>, c: Config, later: seq<Action>, t: nat, url: string)
    requires AllParse(c) && (Occurs(c, url) ==> IsDrained(c, url))
    requires ReloadPart(loading) == ReloadSteps.ReloadSteps(s.w, c)
    requires SelectsAfter(s, loading, later, t, url)
    ensures var e := Exec(Exec(s, loading), later);
      t < |e.threads| && !Uses(e.w, e.threads[t], url)
  {
    hide AllParse, IsDrained, Occurs, Exec, KeepsDrainedRun, DrainedInTable, Settings, ApplyConfig, NoneUndrained;
    ReloadAmidTraffic(s, loading, c);
    LoadedDrains(s.w, c, url);
    DrainedInSettings(ApplyConfig(s.w, c), Exec(s, loading).w, url);
    YetToSelect(Exec(s, loading).w, Exec(s, loading).threads[t], url);
    DrainedUrlIsNeverChosen(Exec(s, loading), later, t, url);
  }

  /** tinylb loads what it has been told to load when the i-th effect of the run, a restart, is due. */
  ghost predicate LoadsForRestart(known: Known, urls: seq<string>, polls: set<nat>, i: nat, s: State, loading: seq<Action>) {
    var run := FullRun(ByUrl(), known.file, urls);
    && i < |run| && run[i].Restart?
    && var c := LoadedAt(known.loaded, known.file, run[..i], polls);
    && AllParse(c) && ReloadPart(loading) == ReloadSteps.ReloadSteps(s.w, c)
  }

  /** During a rolling update: once tinylb has loaded what it has been told to load before the restart of a
      target, and was not behind on the first target when the update started, no request that selects from
      then on uses the target until a reload undrains it. */
  lemma RestartGetsNoNewRequests(known: Known, urls: seq<string>, polls: set<nat>, i: nat,
                                 s: State, loading: seq<Action>, later: seq<Action>, t: nat)
    requires Started(ByUrl(), known.file, urls)
    ensures var e, run := Exec(Exec(s, loading), later), FullRun(ByUrl(), known.file, urls);
      && UpToDate(ByUrl(), known.loaded, known.file, urls, polls)
      && LoadsForRestart(known, urls, polls, i, s, loading)
      && SelectsAfter(s, loading, later, t, run[i].key)
      ==> t < |e.threads| && !Uses(e.w, e.threads[t], run[i].key)
  {
    hide AllParse, IsDrained, Exec, KeepsDrainedRun, LoadedAt, FullRun, Started, UpToDate, Uses, ReloadSteps.ReloadSteps, SelectsAfter;
    LoadedDrainedExactly(ByUrl(), known.loaded, known.file, urls, polls);
    var run := FullRun(ByUrl(), known.file, urls);
    if UpToDate(ByUrl(), known.loaded, known.file, urls, polls) && LoadsForRestart(known, urls, polls, i, s, loading)
       && SelectsAfter(s, loading, later, t, run[i].key) {
      var c := LoadedAt(known.loaded, known.file, run[..i], polls);
      assert ByUrl().drained(c, run[i].key);
      DrainTakesEffect(s, loading, c, later, t, run[i].key);
    }
  }

  /** And if the update keeps traffic away, which RollingUpdate.TrafficQuietExactly decides before it starts, no
      such request uses any URL that reaches the container, target or not. */
  lemma ContainerGetsNoNewRequests(known: Known, urls: seq<string>, polls: set<nat>, i: nat, url: string,
                                   s: State, loading: seq<Action>, later: seq<Action>, t: nat)
    requires TrafficQuiet(known.loaded, known.file, urls, polls) && LoadsForRestart(known, urls, polls, i, s, loading)
    requires SelectsAfter(s, loading, later, t, url)
    ensures var e, run := Exec(Exec(s, loading), later), FullRun(ByUrl(), known.file, urls);
      ServiceOf(run[i].key).Some?
      && (Containers.Reaches(url, ServiceOf(run[i].key).value) ==> t < |e.threads| && !Uses(e.w, e.threads[t], url))
  {
    hide AllParse, IsDrained, Occurs, Exec, LoadedAt, FullRun, Uses, ReloadSteps.ReloadSteps, SelectsAfter, ServiceOf, ServiceQuiet;
    var run := FullRun(ByUrl(), known.file, urls);
    var c := LoadedAt(known.loaded, known.file, run[..i], polls);
    assert QuietAt(c, run[i].key);
    var service := ServiceOf(run[i].key).value;
    QuietIsDrained(c, service);
    assert UrlQuiet(c, url, service);
    hide Containers.Reaches;
    if Containers.Reaches(url, service) {
      DrainTakesEffect(s, loading, c, later, t, url);
    }
  }
}
