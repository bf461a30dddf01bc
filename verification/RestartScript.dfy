/** The procedures of examples/rolling-update/rolling_update_lib.py, like SimpleScript. The drain flags that
    decide what to do are those read at the start. */
module RestartScript {
  import opened Prelude
  import opened Registry
  import opened Rolling
  import opened RollingRuns
  import opened RollingAnswers
  import opened RollingRestart

  /** get_backends; None is the RuntimeError. */
  method GetBackends(config: Config, host: string) returns (r: Option<nat>)
    ensures r == FirstRoute(config, host)
  {
    for i := 0 to |config|
      invariant forall k :: 0 <= k < i ==> config[k].host != host
    {
      if config[i].host == host {
        return Some(i);
      }
    }
    r := None;
  }

  /** build_restart_order, over the places of a route. */
  method BuildRestartOrder(config: Config, route: nat) returns (order: seq<nat>)
    requires route < |config|
    ensures order == Order(ByPlace(route), config, Places(|config[route].backends|))
  {
    hide Members;
    var backends := config[route].backends;
    ghost var keys := Places(|backends|);
    ghost var d := DrainedKeys(ByPlace(route), config, keys);
    var drained: seq<nat>, active: seq<nat> := [], [];
    NoPlaces(keys, d);
    for i := 0 to |backends|
      invariant drained == Members(keys[..i], d, true) && active == Members(keys[..i], d, false)
    {
      MembersSnoc(keys[..i], keys[i], d, true);
      MembersSnoc(keys[..i], keys[i], d, false);
      assert keys[..i + 1] == keys[..i] + [keys[i]];
      assert backends[i].drain <==> keys[i] in d;
      if backends[i].drain {
        drained := drained + [i];
      } else {
        active := active + [i];
      }
    }
    assert keys[..|backends|] == keys;
    order := drained + active;
  }

  lemma NoPlaces(keys: seq<nat>, d: set<nat>)
    ensures Members(keys[..0], d, true) == [] && Members(keys[..0], d, false) == []
  {
  }

  datatype Status =
    | Completed
    | NoRoute              // RuntimeError
    | NoBackends           // exit 1
    | BadUrl(place: nat)   // ValueError
    | CommandFailed
    | Unhealthy(place: nat)

  class Script {
    var file: Config
    ghost var effects: seq<Effect<nat>>

    constructor (file: Config)
      ensures this.file == file && effects == []
    {
      this.file, effects := file, [];
    }

    /** Edits a config read before, writes it and signals tinylb; the signal may fail. */
    method SetDrain(config: Config, route: nat, i: nat, drain: bool, signal: bool)
      requires Listed(config, route, i)
      modifies this
      ensures file == SetFlag(config, route, i, drain)
      ensures effects == old(effects) + [Write(file)] + if signal then [Reload] else []
    {
      var backend := config[route].backends[i];
      file := config[route := config[route].(backends := config[route].backends[i := backend.(drain := drain)])];
      effects := effects + [Write(file)];
      if signal {
        effects := effects + [Reload];
      }
    }

    /** One round of the loop of rolling_restart, with the backend as it was read at the start and docker's answers
        about its service. */
    method RestartOne(route: nat, i: nat, backend: BackendConfig, answers: Answers) returns (status: Status)
      requires Listed(file, route, i) && backend.drain == FlagSet(file, route, i)
      modifies this
      ensures var step, cut := StepTrace(ByPlace(route), old(file), i), Done(ByPlace(route), old(file), i, answers);
        if status.BadUrl? then effects == old(effects) && file == old(file)
        else effects == old(effects) + step[..cut] && file == FileAt(old(file), step[..cut])
      ensures status == BadUrl(i) <==> ServiceWithPort(backend.url).None?
      ensures !status.BadUrl? ==> (status.Completed? <==> Positive(ByPlace(route), old(file), i, answers))
      ensures !status.BadUrl? ==> (status == Unhealthy(i) <==>
        Signalled(ByPlace(route), old(file), i, answers) && answers.restart && "healthy" !in answers.statuses)
      ensures status.Completed? || status == BadUrl(i) || status.CommandFailed? || status == Unhealthy(i)
    {
      hide FileAt, StepTrace, DrainSteps, ServiceWithPort;
      ghost var step := StepTrace(ByPlace(route), file, i);
      ghost var pre := |DrainSteps(ByPlace(route), file, i)|;
      StepCuts(ByPlace(route), file, i);
      var service := ServiceWithPort(backend.url);
      if service.None? {
        return BadUrl(i);
      }
      var alreadyDrained := backend.drain;
      if !alreadyDrained {
        SetDrain(file, route, i, true, answers.drainSignal);
        assert effects == old(effects) + step[..if answers.drainSignal then 2 else 1];
        if !answers.drainSignal {
          return CommandFailed;
        }
      }
      effects := effects + [Restart(i)];
      assert effects == old(effects) + step[..pre + 1];
      if !answers.restart {
        return CommandFailed;
      }
      var healthy := WaitHealthy(answers.statuses);
      if !healthy {
        return Unhealthy(i);
      }
      SetDrain(file, route, i, false, answers.undrainSignal);
      assert effects == old(effects) + step[..if answers.undrainSignal then pre + 3 else pre + 2];
      status := if answers.undrainSignal then Completed else CommandFailed;
    }

    /** rolling_restart, with docker's answers about each backend's service. A URL that cannot be parsed ends the
        run when its turn comes, after all that ReachedRun does. */
    method RollingRestart(host: string, answers: nat -> Answers) returns (status: Status)
      modifies this
      ensures match FirstRoute(old(file), host)
        case None => status == NoRoute && file == old(file) && effects == old(effects)
        case Some(route) =>
          var backends := old(file)[route].backends;
          if backends == [] then status == NoBackends && file == old(file) && effects == old(effects)
          else
            var turns := Turns(old(file), route);
            var run := RunUnder(ByPlace(route), old(file), turns, answers);
            && effects == old(effects) + run && file == FileAt(old(file), run)
            && (status.Completed? || status.BadUrl? <==> run == ReachedRun(old(file), route))
            && (status.Completed? ==> |turns| == |backends|)
            && (status.BadUrl? ==> |turns| < |backends|
                                   && status.place < |backends| && ServiceWithPort(backends[status.place].url).None?)
            && (status.Unhealthy? <==> EndsUnhealthy(ByPlace(route), old(file), turns, answers))
            && (status.Unhealthy? ==> run != [] && run[|run| - 1] == Restart(status.place))
            && (status.Completed? || status.BadUrl? || status.CommandFailed? || status.Unhealthy?)
    {
      hide *;
      var found := GetBackends(file, host);
      if found.None? {
        return NoRoute;
      }
      var route := found.value;
      var backends := file[route].backends;
      if backends == [] {
        return NoBackends;
      }
      ghost var start := file;
      ghost var turns := Turns(start, route);
      var order := BuildRestartOrder(file, route);
      PlacesStart(start, route);
      StartedMeans(ByPlace(route), start, Places(|backends|));
      NothingDone(ByPlace(route), start, order);
      TurnsAre(start, route, order);
      RunIsPrefix(ByPlace(route), start, turns, answers);
      for k := 0 to |order|
        invariant k <= |turns| && effects == old(effects) + Trace(ByPlace(route), start, order[..k])
        invariant file == FileAfter(ByPlace(route), start, order[..k])
        invariant forall p :: 0 <= p < k ==>
          Positive(ByPlace(route), FileAfter(ByPlace(route), start, order[..p]), order[p], answers(order[p]))
      {
        var i := order[k];
        assert i in Places(|backends|);
        FlagStillCurrent(start, route, order, k);
        TurnComes(start, route, order, k);
        status := RestartOne(route, i, backends[i], answers(i));
        SameSoFar(turns, order, k);
        if k < |turns| {
          DoneWhole(ByPlace(route), FileAfter(ByPlace(route), start, order[..k]), i, answers(i));
          PartDone(ByPlace(route), start, turns, answers, k);
        } else {
          AllDone(ByPlace(route), start, turns, answers);
        }
        if !status.Completed? {
          if status.Unhealthy? {
            UnhealthyLast(ByPlace(route), start, turns, answers);
          }
          return;
        }
      }
      SameSoFar(turns, order, |turns|);
      AllDone(ByPlace(route), start, turns, answers);
      status := Completed;
    }
  }

  lemma TurnsAre(c: Config, route: nat, order: seq<nat>)
    requires route < |c| && order == Order(ByPlace(route), c, Places(|c[route].backends|))
    ensures Turns(c, route) <= order && |order| == |c[route].backends|
    ensures ReachedRun(c, route) == Trace(ByPlace(route), c, Turns(c, route))
  {
    hide Order;
    StartedMeans(ByPlace(route), c, Places(|c[route].backends|));
  }

  lemma SameSoFar(turns: seq<nat>, order: seq<nat>, k: nat)
    requires turns <= order && k <= |turns|
    ensures forall p :: 0 <= p <= k ==> turns[..p] == order[..p]
    ensures forall p :: 0 <= p < k ==> turns[p] == order[p]
    ensures k < |turns| ==> turns[k] == order[k] && turns[..k + 1] == order[..k + 1]
  {
  }

  /** The run reaches a backend's part if its URL can be parsed, and ends before it otherwise. */
  lemma TurnComes(c: Config, route: nat, order: seq<nat>, k: nat)
    requires route < |c| && order == Order(ByPlace(route), c, Places(|c[route].backends|))
    requires k < |order| && order[k] < |c[route].backends| && k <= |Turns(c, route)|
    ensures var t := Trace(ByPlace(route), c, order[..k]);
      if ServiceWithPort(c[route].backends[order[k]].url).Some? then
        k < |Turns(c, route)|
        && |t| + |StepTrace(ByPlace(route), FileAfter(ByPlace(route), c, order[..k]), order[k])| <= |ReachedRun(c, route)|
      else k == |Turns(c, route)| && t == ReachedRun(c, route)
  {
    hide Trace, StepTrace, FileAfter, Order, ServiceWithPort;
    var turns := Turns(c, route);
    assert turns == order[..|turns|];
    assert ServiceAt(c, route, order[k]) == ServiceWithPort(c[route].backends[order[k]].url);
    if k < |turns| {
      assert turns[k] in turns && turns[..k] == order[..k];
      PartialRun(ByPlace(route), c, turns, k, 0);
    }
  }

  /** The flag read at the start is still the one in the file when the backend's turn comes. */
  lemma FlagStillCurrent(c: Config, route: nat, order: seq<nat>, k: nat)
    requires route < |c| && k < |order| && Unique(order) && order[k] < |c[route].backends|
    ensures var f := FileAfter(ByPlace(route), c, order[..k]);
      Listed(f, route, order[k]) && FlagSet(f, route, order[k]) == c[route].backends[order[k]].drain
  {
    hide FileAfter;
    FileAfterIsClearedAt(c, route, order[..k]);
  }
}
