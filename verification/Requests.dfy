/** Requests in flight: route lookup, the least-connections scan one atomic load at a time, taking and
    dropping the connection guard; with health flips and the single stores of reloads in between.
    The order is that of handle_request in src/main.rs and of src/http_proxy.rs and src/proxy.rs. */
module Requests {
  import opened Prelude
  import opened Hosts
  import opened Selection
  import opened Registry

  /** Where a request stands. A scan carries what is left of the list, best and best_count. */
  datatype Pc =
    | Idle
    | Routed(group: nat)                                                        // about to select in its group
    | At(list: seq<nat>, best: Option<nat>, count: nat)                         // about to load drain of the next
    | Undrained(list: seq<nat>, best: Option<nat>, count: nat)                  // about to load healthy
    | Sound(list: seq<nat>, best: Option<nat>, count: nat)                      // about to load the count
    | Counted(active: nat, list: seq<nat>, best: Option<nat>, count: nat)       // about to load the cap and compare
    | Chosen(id: nat)                                                           // selected, guard not taken yet
    | Guarded(id: nat)                                                          // counted in active_connections

  datatype State = State(w: World, threads: seq<Pc>)

  datatype Action =
    | Arrive(t: nat, host: string)
    | Step(t: nat)
    | TakeGuard(t: nat)
    | GiveUp(t: nat)                               // e.g. the WebSocket upgrade failed
    | Drop(t: nat)
    | SetHealthy(id: nat, healthy: bool)
    | StoreMax(id: nat, max: Usize)                // the single steps of reloads
    | StoreDrain(id: nat, drain: bool)
    | AddBackend(config: BackendConfig)
    | AddGroup(group: Group)
    | SetList(g: nat, ids: seq<nat>)
    | SetTable(ids: seq<nat>)

  /** One step of the scan; it changes nothing but the request itself. */
  function ScanStep(w: World, pc: Pc): Pc {
    match pc
    case Routed(g) => if g < |w.groups| then At(w.groups[g].backends, None, USIZE_MAX) else Idle
    case At(list, best, count) =>
      if list == [] then (if best.Some? then Chosen(best.value) else Idle)
      else if list[0] >= |w.backends| || w.backends[list[0]].drain then At(list[1..], best, count)
      else Undrained(list, best, count)
    case Undrained(list, best, count) =>
      if list == [] || list[0] >= |w.backends| then pc
      else if !w.backends[list[0]].healthy then At(list[1..], best, count)
      else Sound(list, best, count)
    case Sound(list, best, count) =>
      if list == [] || list[0] >= |w.backends| then pc
      else Counted(w.backends[list[0]].active, list, best, count)
    case Counted(active, list, best, count) =>
      if list == [] || list[0] >= |w.backends| then pc
      else if active >= w.backends[list[0]].max then At(list[1..], best, count)
      else if active < count then At(list[1..], Some(list[0]), active)
      else At(list[1..], best, count)
    case _ => pc
  }

  function KindsOf(w: World): (kinds: seq<HostMatch>)
    ensures |kinds| == |w.table|
  {
    seq(|w.table|, i requires 0 <= i < |w.table| =>
      if w.table[i] < |w.groups| then w.groups[w.table[i]].kind else Exact(""))
  }

  /** find_group, under the read lock on the table. */
  function Route(w: World, host: string): Pc {
    var i := FindGroup(KindsOf(w), host);
    if i.Some? then Routed(w.table[i.value]) else Idle
  }

  lemma KindsAreParsed(w: World, i: nat)
    requires WellFormed(w) && i < |w.table|
    ensures w.table[i] < |w.groups| && KindsOf(w)[i] == w.groups[w.table[i]].kind && Dotted(KindsOf(w)[i])
  {
    hide Parse;
    ParseUpToCase(w.groups[w.table[i]].host, w.groups[w.table[i]].host);
  }

  /** A request goes to the group that matches its host best by labels, and to none only if none matches. */
  lemma RouteByLabels(w: World, host: string)
    requires WellFormed(w)
    ensures var h := Lower(BeforeColon(host));
      match Route(w, host)
      case Routed(g) => g in w.table && g < |w.groups| && BestMatch(KindsOf(w), h, w.groups[g].kind)
      case _ => Route(w, host) == Idle && NoMatch(KindsOf(w), h)
  {
    forall i | 0 <= i < |w.table|
      ensures w.table[i] < |w.groups| && KindsOf(w)[i] == w.groups[w.table[i]].kind && Dotted(KindsOf(w)[i])
    {
      KindsAreParsed(w, i);
    }
    hide WellFormed, BestMatch, NoMatch;
    FindGroupByLabels(KindsOf(w), host);
  }

  function HostsOf(w: World): (hosts: seq<string>)
    ensures |hosts| == |w.table|
  {
    seq(|w.table|, i requires 0 <= i < |w.table| => if w.table[i] < |w.groups| then w.groups[w.table[i]].host else "")
  }

  /** A listed group whose configured host serves the name. */
  predicate ListedFor(w: World, g: nat, name: string) { g in w.table && g < |w.groups| && Serves(w.groups[g].host, name) }

  lemma HostsAreParsed(w: World)
    requires WellFormed(w)
    ensures AllParsed(HostsOf(w), KindsOf(w))
  {
    forall i | 0 <= i < |w.table|
      ensures Parse(HostsOf(w)[i]) == Ok(KindsOf(w)[i])
    {
      assert w.table[i] < |w.groups|;
    }
  }

  lemma ServedIsListed(w: World, i: nat, name: string)
    requires WellFormed(w) && i < |w.table|
    ensures w.table[i] < |w.groups| && HostsOf(w)[i] == w.groups[w.table[i]].host
    ensures Serves(HostsOf(w)[i], name) <==> ListedFor(w, w.table[i], name)
  {
    hide Parse, Serves;
  }

  /** In terms of the configured hosts: a request for a name, with or without a port, goes to a listed group whose
      host serves it, to a plain host before a star and to a longer star before a shorter, and to none only if there
      is no such group. */
  lemma RouteByHost(w: World, name: string, rest: string)
    requires WellFormed(w) && ':' !in name
    ensures Route(w, name + ":" + rest) == Route(w, name)
    ensures match Route(w, name)
      case Routed(g) => PreferredGroup(w, g, name)
      case _ => Route(w, name) == Idle && forall k: nat :: !ListedFor(w, k, name)
  {
    HostsAreParsed(w);
    RoutesByHost(HostsOf(w), KindsOf(w), name, rest);
    var r := FindGroup(KindsOf(w), name);
    hide Parse, FindGroup, KindsOf, HostsOf, PreferredGroup;
    if r.Some? {
      PreferredIsListed(w, r.value, name);
    } else {
      NoneListed(w, name);
    }
  }

  /** Listed for the name, and nothing listed for it comes before. */
  ghost predicate PreferredGroup(w: World, g: nat, name: string) {
    && ListedFor(w, g, name)
    && (Starred(w.groups[g].host) ==> forall k: nat :: ListedFor(w, k, name) ==>
         Starred(w.groups[k].host) && |w.groups[k].host| <= |w.groups[g].host|)
  }

  lemma PlaceOf(w: World, k: nat, name: string) returns (i: nat)
    requires WellFormed(w) && ListedFor(w, k, name)
    ensures i < |w.table| && w.table[i] == k && HostsOf(w)[i] == w.groups[k].host && Serves(HostsOf(w)[i], name)
  {
    hide Parse, Serves;
    i :| 0 <= i < |w.table| && w.table[i] == k;
    ServedIsListed(w, i, name);
  }

  lemma PreferredIsListed(w: World, i: nat, name: string)
    requires WellFormed(w) && i < |w.table| && Preferred(HostsOf(w), name, i)
    ensures PreferredGroup(w, w.table[i], name)
  {
    hide WellFormed, Serves, HostsOf, Starred;
    ServedIsListed(w, i, name);
    var g := w.table[i];
    forall k: nat | ListedFor(w, k, name) && Starred(w.groups[g].host)
      ensures Starred(w.groups[k].host) && |w.groups[k].host| <= |w.groups[g].host|
    {
      var j := PlaceOf(w, k, name);
    }
  }

  lemma NoneListed(w: World, name: string)
    requires WellFormed(w) && forall i :: 0 <= i < |w.table| ==> !Serves(HostsOf(w)[i], name)
    ensures forall k: nat :: !ListedFor(w, k, name)
  {
    hide WellFormed, Serves, HostsOf;
    forall k: nat
      ensures !ListedFor(w, k, name)
    {
      if ListedFor(w, k, name) {
        var i := PlaceOf(w, k, name);
      }
    }
  }

  function Touched(w: World, id: nat, v: View): World
    requires id < |w.backends|
  {
    w.(backends := w.backends[id := v])
  }

  function Next(s: State, a: Action): State {
    match a
    case Arrive(t, host) =>
      if t < |s.threads| && s.threads[t].Idle? then s.(threads := s.threads[t := Route(s.w, host)]) else s
    case Step(t) =>
      if t < |s.threads| then s.(threads := s.threads[t := ScanStep(s.w, s.threads[t])]) else s
    case TakeGuard(t) =>
      if t < |s.threads| && s.threads[t].Chosen? && s.threads[t].id < |s.w.backends| then
        var id := s.threads[t].id;
        var v := s.w.backends[id];
        State(Touched(s.w, id, v.(active := Up(v.active))), s.threads[t := Guarded(id)])
      else s
    case GiveUp(t) =>
      if t < |s.threads| && s.threads[t].Chosen? then s.(threads := s.threads[t := Idle]) else s
    case Drop(t) =>
      if t < |s.threads| && s.threads[t].Guarded? && s.threads[t].id < |s.w.backends| then
        var id := s.threads[t].id;
        var v := s.w.backends[id];
        State(Touched(s.w, id, v.(active := Down(v.active))), s.threads[t := Idle])
      else s
    case SetHealthy(id, healthy) =>
      if id < |s.w.backends| then s.(w := Touched(s.w, id, s.w.backends[id].(healthy := healthy))) else s
    case StoreMax(id, max) =>
      if id < |s.w.backends| then s.(w := Touched(s.w, id, s.w.backends[id].(max := max))) else s
    case StoreDrain(id, drain) =>
      if id < |s.w.backends| then s.(w := Touched(s.w, id, s.w.backends[id].(drain := drain))) else s
    case AddBackend(config) => s.(w := s.w.(backends := s.w.backends + [NewView(config)]))
    case AddGroup(group) => s.(w := s.w.(groups := s.w.groups + [group]))
    case SetList(g, ids) =>
      if g < |s.w.groups| then s.(w := s.w.(groups := s.w.groups[g := s.w.groups[g].(backends := ids)])) else s
    case SetTable(ids) => s.(w := s.w.(table := ids))
  }

  function Exec(s: State, schedule: seq<Action>): State
    decreases |schedule|
  {
    if schedule == [] then s else Exec(Next(s, schedule[0]), schedule[1..])
  }

  lemma {:induction false} ExecConcat(s: State, a: seq<Action>, b: seq<Action>)
    ensures Exec(s, a + b) == Exec(Exec(s, a), b)
    decreases |a|
  {
    hide Next;
    if a == [] {
      assert a + b == b;
    } else {
      ExecConcat(Next(s, a[0]), a[1..], b);
      assert (a + b)[1..] == a[1..] + b;
    }
  }

  // ------------------------------------------------------------ live guards

  function GuardOn(id: nat): Pc -> bool { (pc: Pc) => pc == Guarded(id) }

  /** A request refers to existing objects only. */
  predicate InRange(pc: Pc, n: nat) {
    match pc
    case Idle | Routed(_) => true
    case At(_, best, _) => best.Some? ==> best.value < n
    case Undrained(list, best, _) => list != [] && list[0] < n && (best.Some? ==> best.value < n)
    case Sound(list, best, _) => list != [] && list[0] < n && (best.Some? ==> best.value < n)
    case Counted(_, list, best, _) => list != [] && list[0] < n && (best.Some? ==> best.value < n)
    case Chosen(id) => id < n
    case Guarded(id) => id < n
  }

  predicate AllInRange(s: State) { forall t :: 0 <= t < |s.threads| ==> InRange(s.threads[t], |s.w.backends|) }

  /** Every object's counter, listed in the table or not, equals its live guards. */
  predicate Accounted(s: State) {
    AllInRange(s)
    && forall id :: 0 <= id < |s.w.backends| ==> s.w.backends[id].active == Count(s.threads, GuardOn(id))
  }

  lemma InRangeStep(s: State, a: Action)
    requires AllInRange(s)
    ensures AllInRange(Next(s, a)) && |Next(s, a).threads| == |s.threads|
    ensures |Next(s, a).w.backends| >= |s.w.backends|
  {
  }

  lemma {:induction false} NoneBeyond(threads: seq<Pc>, id: nat)
    requires forall t :: 0 <= t < |threads| ==> InRange(threads[t], id)
    ensures Count(threads, GuardOn(id)) == 0
  {
    CountNone(threads, GuardOn(id));
  }

  lemma GuardCountAfter(threads: seq<Pc>, t: nat, pc: Pc, id: nat)
    requires t < |threads|
    ensures Count(threads[t := pc], GuardOn(id)) + Bit(threads[t] == Guarded(id)) == Count(threads, GuardOn(id)) + Bit(pc == Guarded(id))
  {
    CountUpdate(threads, t, pc, GuardOn(id));
  }

  /** Steps that only move a request from one unguarded place to another. */
  predicate Unguarded(a: Action) { a.Arrive? || a.Step? || a.GiveUp? }

  lemma UnguardedStep(s: State, a: Action, id: nat)
    requires Unguarded(a)
    ensures Next(s, a).w == s.w && Count(Next(s, a).threads, GuardOn(id)) == Count(s.threads, GuardOn(id))
  {
    if a.t < |s.threads| {
      hide ScanStep, Route;
      var pc := Next(s, a).threads[a.t];
      UnguardedPlaces(s, a);
      GuardCountAfter(s.threads, a.t, pc, id);
      assert s.threads[a.t := s.threads[a.t]] == s.threads;
    }
  }

  lemma UnguardedPlaces(s: State, a: Action)
    requires Unguarded(a) && a.t < |s.threads|
    ensures var pc := Next(s, a).threads[a.t];
      Next(s, a) == s.(threads := s.threads[a.t := pc]) && (pc.Guarded? ==> pc == s.threads[a.t])
      && (s.threads[a.t].Guarded? ==> pc == s.threads[a.t])
  {
    assert s.threads[a.t := s.threads[a.t]] == s.threads;
  }

  lemma TakeGuardStep(s: State, t: nat, id: nat)
    requires Accounted(s) && |s.threads| <= USIZE_MAX && id < |s.w.backends|
    ensures var s' := Next(s, TakeGuard(t));
      |s'.w.backends| == |s.w.backends| && s'.w.backends[id].active == Count(s'.threads, GuardOn(id))
  {
    var s' := Next(s, TakeGuard(t));
    if s' != s {
      var own := s.threads[t].id;
      GuardCountAfter(s.threads, t, Guarded(own), id);
    }
  }

  lemma DropStep(s: State, t: nat, id: nat)
    requires Accounted(s) && id < |s.w.backends|
    ensures var s' := Next(s, Drop(t));
      |s'.w.backends| == |s.w.backends| && s'.w.backends[id].active == Count(s'.threads, GuardOn(id))
    ensures t < |s.threads| && s.threads[t].Guarded? ==> s.w.backends[s.threads[t].id].active > 0
  {
    if t < |s.threads| && s.threads[t].Guarded? {
      var own := s.threads[t].id;
      assert InRange(s.threads[t], |s.w.backends|);
      CountPositive(s.threads, t, GuardOn(own));
      GuardCountAfter(s.threads, t, Idle, id);
    }
  }

  lemma AccountedStep(s: State, a: Action, id: nat)
    requires Accounted(s) && |s.threads| <= USIZE_MAX && id < |Next(s, a).w.backends|
    ensures Next(s, a).w.backends[id].active == Count(Next(s, a).threads, GuardOn(id))
  {
    hide ScanStep, Route, InRange;
    if Unguarded(a) {
      UnguardedStep(s, a, id);
    } else if a.TakeGuard? {
      TakeGuardStep(s, a.t, id);
    } else if a.Drop? {
      DropStep(s, a.t, id);
    } else if a.AddBackend? && id == |s.w.backends| {
      NoneBeyond(s.threads, id);
    }
  }

  /** In every run each object's counter, removed objects included, equals its live guards. */
  lemma {:induction false} CountersEqualLiveGuards(s: State, schedule: seq<Action>)
    requires Accounted(s) && |s.threads| <= USIZE_MAX
    ensures Accounted(Exec(s, schedule)) && |Exec(s, schedule).threads| == |s.threads|
    decreases |schedule|
  {
    if schedule != [] {
      var s' := Next(s, schedule[0]);
      InRangeStep(s, schedule[0]);
      forall id: nat | id < |s'.w.backends|
        ensures s'.w.backends[id].active == Count(s'.threads, GuardOn(id))
      {
        AccountedStep(s, schedule[0], id);
      }
      CountersEqualLiveGuards(s', schedule[1..]);
    }
  }

  /** So a drop never finds the counter at zero and a guard never finds it at its maximum: neither wraps. */
  lemma CountersNeverWrap(s: State, schedule: seq<Action>, t: nat)
    requires Accounted(s) && |s.threads| <= USIZE_MAX && t < |s.threads|
    ensures var e := Exec(s, schedule);
      && |e.threads| == |s.threads|
      && (e.threads[t].Guarded? ==> e.threads[t].id < |e.w.backends| && e.w.backends[e.threads[t].id].active > 0)
      && (e.threads[t].Chosen? ==> e.threads[t].id < |e.w.backends| && e.w.backends[e.threads[t].id].active < USIZE_MAX)
  {
    CountersEqualLiveGuards(s, schedule);
    var e := Exec(s, schedule);
    assert InRange(e.threads[t], |e.w.backends|);
    if e.threads[t].Guarded? {
      CountPositive(e.threads, t, GuardOn(e.threads[t].id));
    }
    if e.threads[t].Chosen? {
      CountMissesOne(e.threads, t, GuardOn(e.threads[t].id));
    }
  }

  lemma {:induction false} CountMissesOne<T>(s: seq<T>, i: nat, p: T -> bool)
    requires i < |s| && !p(s[i])
    ensures Count(s, p) < |s|
  {
    if i < |s| - 1 {
      CountMissesOne(s[..|s| - 1], i, p);
    }
  }

  /** Taking a guard counts one more connection on the chosen object and nothing else, and dropping it gives
      everything back. */
  lemma GuardTakenAndDropped(s: State, t: nat)
    requires t < |s.threads| && s.threads[t].Chosen? && s.threads[t].id < |s.w.backends|
    requires s.w.backends[s.threads[t].id].active < USIZE_MAX
    ensures var id := s.threads[t].id;
      var v, taken := s.w.backends[id], Next(s, TakeGuard(t));
      && taken.threads == s.threads[t := Guarded(id)]
      && taken.w == s.w.(backends := s.w.backends[id := v.(active := v.active + 1)])
      && Next(taken, Drop(t)) == s.(threads := s.threads[t := Idle])
  {
    var id := s.threads[t].id;
    var taken := Next(s, TakeGuard(t));
    assert taken.w.backends[id := s.w.backends[id]] == s.w.backends;
  }

  // -------------------------------------------------------- the connection cap

  /** Between loading this object's count in a scan and taking its guard or giving up. */
  predicate InWindow(pc: Pc, id: nat) {
    match pc
    case At(_, best, _) => best == Some(id)
    case Undrained(_, best, _) => best == Some(id)
    case Sound(_, best, _) => best == Some(id)
    case Counted(_, list, best, _) => best == Some(id) || (list != [] && list[0] == id)
    case Chosen(i) => i == id
    case _ => false
  }

  /** In the window, and not with a count that already reached m. */
  predicate MayTake(pc: Pc, id: nat, m: nat) {
    InWindow(pc, id) && (pc.Counted? && pc.best != Some(id) ==> pc.active < m)
  }

  function WindowOn(id: nat): Pc -> bool { (pc: Pc) => InWindow(pc, id) }

  function MayTakeOn(id: nat, m: nat): Pc -> bool { (pc: Pc) => MayTake(pc, id, m) }

  /** In this state the object's cap is at most m and at most k requests are in its window. */
  predicate Modest(s: State, id: nat, m: nat, k: nat) {
    (id < |s.w.backends| ==> s.w.backends[id].max <= m) && Count(s.threads, WindowOn(id)) <= k
  }

  /** All along the run. */
  predicate ModestRun(s: State, schedule: seq<Action>, id: nat, m: nat, k: nat)
    decreases |schedule|
  {
    Modest(s, id, m, k) && (schedule != [] ==> ModestRun(Next(s, schedule[0]), schedule[1..], id, m, k))
  }

  /** The inductive form of the bound: requests that may still take a guard are counted in. */
  predicate Capped(s: State, id: nat, m: nat, k: nat) {
    (if id < |s.w.backends| then s.w.backends[id].active else 0) + Count(s.threads, MayTakeOn(id, m)) <= m - 1 + k
  }

  lemma MayTakeCount(threads: seq<Pc>, t: nat, pc: Pc, id: nat, m: nat)
    requires t < |threads|
    ensures Count(threads[t := pc], MayTakeOn(id, m)) + Bit(MayTake(threads[t], id, m))
         == Count(threads, MayTakeOn(id, m)) + Bit(MayTake(pc, id, m))
  {
    CountUpdate(threads, t, pc, MayTakeOn(id, m));
  }

  /** A scan step makes a request one that may take a guard only by loading a count below m. */
  lemma ScanStepWindow(w: World, pc: Pc, id: nat, m: nat)
    requires InRange(pc, |w.backends|) && (id < |w.backends| ==> w.backends[id].max <= m)
    ensures MayTake(ScanStep(w, pc), id, m) && !MayTake(pc, id, m) ==> id < |w.backends| && w.backends[id].active < m
  {
  }

  lemma CappedUnguarded(s: State, a: Action, id: nat, m: nat, k: nat)
    requires m >= 1 && k >= 1 && AllInRange(s) && Unguarded(a)
    requires Capped(s, id, m, k) && Modest(s, id, m, k) && Modest(Next(s, a), id, m, k)
    ensures Capped(Next(s, a), id, m, k)
  {
    var s' := Next(s, a);
    if a.t < |s.threads| {
      UnguardedPlaces(s, a);
      assert InRange(s.threads[a.t], |s.w.backends|);
      if a.Step? {
        ScanStepWindow(s.w, s.threads[a.t], id, m);
      }
      hide ScanStep, Route, InRange;
      MayTakeCount(s.threads, a.t, s'.threads[a.t], id, m);
      CountMonotone(s'.threads, MayTakeOn(id, m), WindowOn(id));
    }
  }

  lemma CappedTakeGuard(s: State, t: nat, id: nat, m: nat, k: nat)
    requires AllInRange(s) && Capped(s, id, m, k)
    ensures Capped(Next(s, TakeGuard(t)), id, m, k)
  {
    var s' := Next(s, TakeGuard(t));
    if s' != s {
      MayTakeCount(s.threads, t, s'.threads[t], id, m);
    }
  }

  lemma CappedDrop(s: State, t: nat, id: nat, m: nat, k: nat)
    requires Accounted(s) && Capped(s, id, m, k)
    ensures Capped(Next(s, Drop(t)), id, m, k)
  {
    var s' := Next(s, Drop(t));
    if s' != s {
      DropStep(s, t, s.threads[t].id);
      MayTakeCount(s.threads, t, Idle, id, m);
    }
  }

  lemma CappedStep(s: State, a: Action, id: nat, m: nat, k: nat)
    requires m >= 1 && k >= 1 && Accounted(s)
    requires Capped(s, id, m, k) && Modest(s, id, m, k) && Modest(Next(s, a), id, m, k)
    ensures Capped(Next(s, a), id, m, k)
  {
    hide ScanStep, Route, InRange, MayTakeOn;
    if Unguarded(a) {
      CappedUnguarded(s, a, id, m, k);
    } else if a.TakeGuard? {
      CappedTakeGuard(s, a.t, id, m, k);
    } else if a.Drop? {
      CappedDrop(s, a.t, id, m, k);
    }
  }

  lemma {:induction false} CappedAlways(s: State, schedule: seq<Action>, id: nat, m: nat, k: nat)
    requires m >= 1 && k >= 1 && |s.threads| <= USIZE_MAX && Accounted(s) && Capped(s, id, m, k)
    requires ModestRun(s, schedule, id, m, k)
    ensures Capped(Exec(s, schedule), id, m, k)
    decreases |schedule|
  {
    if schedule != [] {
      var s' := Next(s, schedule[0]);
      CappedStep(s, schedule[0], id, m, k);
      CountersEqualLiveGuards(s, [schedule[0]]);
      assert Exec(s', []) == s' && [schedule[0]][1..] == [];
      CappedAlways(s', schedule[1..], id, m, k);
    }
  }

  /** A registry before any request. */
  predicate Quiet(s: State) {
    && |s.threads| <= USIZE_MAX
    && (forall t :: 0 <= t < |s.threads| ==> s.threads[t].Idle?)
    && (forall id :: 0 <= id < |s.w.backends| ==> s.w.backends[id].active == 0)
  }

  lemma QuietStart(s: State, id: nat, m: nat, k: nat)
    requires Quiet(s) && m >= 1 && k >= 1
    ensures Accounted(s) && Capped(s, id, m, k)
  {
    forall i | 0 <= i < |s.w.backends|
      ensures Count(s.threads, GuardOn(i)) == 0
    {
      CountNone(s.threads, GuardOn(i));
    }
    CountNone(s.threads, MayTakeOn(id, m));
  }

  function ActiveOf(s: State, id: nat): nat { if id < |s.w.backends| then s.w.backends[id].active else 0 }

  /** In every interleaving of requests, drops, health flips and reload steps: if an object's cap never
      exceeds m and never more than k requests at once are between loading its count and taking its guard
      or giving up, its connections never exceed m - 1 + k. */
  lemma ConnectionBound(s: State, schedule: seq<Action>, id: nat, m: nat, k: nat)
    requires Quiet(s) && m >= 1 && k >= 1 && ModestRun(s, schedule, id, m, k)
    ensures ActiveOf(Exec(s, schedule), id) <= m - 1 + k
  {
    QuietStart(s, id, m, k);
    CappedAlways(s, schedule, id, m, k);
  }

  // ------------------------------------------------------------- a drained backend

  /** The request has not got past the drain flag of this object in its current scan. */
  predicate NotTaken(pc: Pc, id: nat) {
    match pc
    case At(_, best, _) => best != Some(id)
    case Undrained(list, best, _) => best != Some(id) && (list != [] ==> list[0] != id)
    case Sound(list, best, _) => best != Some(id) && (list != [] ==> list[0] != id)
    case Counted(_, list, best, _) => best != Some(id) && (list != [] ==> list[0] != id)
    case Chosen(i) => i != id
    case Guarded(i) => i != id
    case _ => true
  }

  /** The object is drained in this state and stays so all along the run. */
  predicate DrainedRun(s: State, schedule: seq<Action>, id: nat)
    decreases |schedule|
  {
    id < |s.w.backends| && s.w.backends[id].drain
    && (schedule != [] ==> DrainedRun(Next(s, schedule[0]), schedule[1..], id))
  }

  lemma DrainedStep(s: State, a: Action, t: nat, id: nat)
    requires id < |s.w.backends| && s.w.backends[id].drain
    requires t < |s.threads| && NotTaken(s.threads[t], id)
    ensures |Next(s, a).threads| == |s.threads| && NotTaken(Next(s, a).threads[t], id)
  {
  }

  /** Once an object is drained, no select_backend call that has yet to look at its drain flag, in
      particular none that starts later, returns it until it is undrained. */
  lemma {:induction false} DrainedIsNeverSelected(s: State, schedule: seq<Action>, t: nat, id: nat)
    requires DrainedRun(s, schedule, id) && t < |s.threads| && NotTaken(s.threads[t], id)
    ensures var e := Exec(s, schedule);
      t < |e.threads| && NotTaken(e.threads[t], id) && e.threads[t] != Chosen(id) && e.threads[t] != Guarded(id)
    decreases |schedule|
  {
    if schedule != [] {
      DrainedStep(s, schedule[0], t, id);
      DrainedIsNeverSelected(Next(s, schedule[0]), schedule[1..], t, id);
    }
  }

  // ------------------------------------------- an undisturbed scan is the selection

  function Solo(s: State, t: nat, steps: nat): State {
    if steps == 0 then s else Next(Solo(s, t, steps - 1), Step(t))
  }

  /** Whether a backend replaces the best so far. */
  predicate Better(w: World, id: nat, count: nat) {
    id < |w.backends| && Eligible(w.backends[id]) && w.backends[id].active < count
  }

  /** The scan of a list from some point on, done in one go. */
  function Scanned(w: World, list: seq<nat>, best: Option<nat>, count: nat): Pc
    decreases |list|
  {
    if list == [] then (if best.Some? then Chosen(best.value) else Idle)
    else if Better(w, list[0], count) then Scanned(w, list[1..], Some(list[0]), w.backends[list[0]].active)
    else Scanned(w, list[1..], best, count)
  }

  /** The steps that looking at one backend takes. */
  function StepsForOne(w: World, id: nat): nat {
    if id >= |w.backends| || w.backends[id].drain then 1 else if !w.backends[id].healthy then 2 else 4
  }

  function StepsFor(w: World, list: seq<nat>): nat {
    if list == [] then 1 else StepsForOne(w, list[0]) + StepsFor(w, list[1..])
  }

  /** t makes so many steps and nothing else happens. */
  function Steps(w: World, pc: Pc, steps: nat): Pc {
    if steps == 0 then pc else ScanStep(w, Steps(w, pc, steps - 1))
  }

  lemma {:induction false} SoloIsSteps(s: State, t: nat, steps: nat)
    requires t < |s.threads|
    ensures Solo(s, t, steps) == s.(threads := s.threads[t := Steps(s.w, s.threads[t], steps)])
  {
    hide ScanStep;
    if steps > 0 {
      SoloIsSteps(s, t, steps - 1);
    } else {
      assert s.threads[t := s.threads[t]] == s.threads;
    }
  }

  lemma {:induction false} StepsSum(w: World, pc: Pc, a: nat, b: nat)
    ensures Steps(w, Steps(w, pc, a), b) == Steps(w, pc, a + b)
  {
    if b > 0 {
      StepsSum(w, pc, a, b - 1);
    }
  }

  lemma ScanOne(w: World, list: seq<nat>, best: Option<nat>, count: nat)
    requires list != []
    ensures Steps(w, At(list, best, count), StepsForOne(w, list[0]))
         == if Better(w, list[0], count) then At(list[1..], Some(list[0]), w.backends[list[0]].active)
            else At(list[1..], best, count)
  {
    var pc := At(list, best, count);
    assert Steps(w, pc, 1) == ScanStep(w, pc);
    assert Steps(w, pc, 2) == ScanStep(w, Steps(w, pc, 1));
    assert Steps(w, pc, 3) == ScanStep(w, Steps(w, pc, 2));
    assert Steps(w, pc, 4) == ScanStep(w, Steps(w, pc, 3));
  }

  lemma {:induction false} ScanAll(w: World, list: seq<nat>, best: Option<nat>, count: nat)
    ensures Steps(w, At(list, best, count), StepsFor(w, list)) == Scanned(w, list, best, count)
    decreases |list|
  {
    if list == [] {
      assert Steps(w, At(list, best, count), 1) == ScanStep(w, At(list, best, count));
    } else {
      hide Steps, StepsForOne, ScanStep, Eligible;
      ScanOne(w, list, best, count);
      if Better(w, list[0], count) {
        ScanAll(w, list[1..], Some(list[0]), w.backends[list[0]].active);
      } else {
        ScanAll(w, list[1..], best, count);
      }
      StepsSum(w, At(list, best, count), StepsForOne(w, list[0]), StepsFor(w, list[1..]));
    }
  }

  function ViewsOf(w: World, list: seq<nat>): (views: seq<View>)
    requires forall i :: 0 <= i < |list| ==> list[i] < |w.backends|
    ensures |views| == |list|
  {
    seq(|list|, i requires 0 <= i < |list| => w.backends[list[i]])
  }

  /** The state of the scan after its first i backends agrees with Select on those. */
  lemma {:induction false} ScannedIsSelected(w: World, list: seq<nat>, i: nat)
    requires i <= |list| && forall j :: 0 <= j < |list| ==> list[j] < |w.backends|
    ensures var r := Select(ViewsOf(w, list)[..i]);
      Scanned(w, list, None, USIZE_MAX)
      == Scanned(w, list[i..], if r.Some? then Some(list[r.value]) else None,
                 if r.Some? then w.backends[list[r.value]].active else USIZE_MAX)
  {
    var views := ViewsOf(w, list);
    if i == 0 {
      assert list[0..] == list;
    } else {
      ScannedIsSelected(w, list, i - 1);
      assert views[..i][..i - 1] == views[..i - 1];
      assert list[i - 1..][1..] == list[i..];
      assert views[..i][i - 1] == w.backends[list[i - 1]];
    }
  }

  lemma StepsSelect(w: World, g: nat)
    requires g < |w.groups|
    requires var list := w.groups[g].backends; forall j :: 0 <= j < |list| ==> list[j] < |w.backends|
    ensures var list := w.groups[g].backends;
      var r := Select(ViewsOf(w, list));
      Steps(w, Routed(g), 1 + StepsFor(w, list)) == if r.Some? then Chosen(list[r.value]) else Idle
  {
    var list := w.groups[g].backends;
    var views := ViewsOf(w, list);
    assert Steps(w, Routed(g), 1) == At(list, None, USIZE_MAX) by {
      assert Steps(w, Routed(g), 0) == Routed(g);
    }
    hide Steps, ScanStep, Select, ViewsOf, StepsFor;
    StepsSum(w, Routed(g), 1, StepsFor(w, list));
    ScanAll(w, list, None, USIZE_MAX);
    ScannedIsSelected(w, list, |list|);
    assert views[..|list|] == views && list[|list|..] == [];
  }

  /** A scan that nothing disturbs chooses exactly what BackendGroup.SelectBackend returns, and changes nothing. */
  lemma SoloScanSelects(s: State, t: nat, g: nat)
    requires t < |s.threads| && s.threads[t] == Routed(g) && g < |s.w.groups|
    requires var list := s.w.groups[g].backends; forall j :: 0 <= j < |list| ==> list[j] < |s.w.backends|
    ensures var list := s.w.groups[g].backends;
      var r := Select(ViewsOf(s.w, list));
      Solo(s, t, 1 + StepsFor(s.w, list))
      == s.(threads := s.threads[t := if r.Some? then Chosen(list[r.value]) else Idle])
  {
    hide Steps, Solo, Select, ViewsOf, StepsFor;
    StepsSelect(s.w, g);
    SoloIsSteps(s, t, 1 + StepsFor(s.w, s.w.groups[g].backends));
  }
}
