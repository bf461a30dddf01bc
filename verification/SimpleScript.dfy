/** The procedures of examples/rolling-update/simple.py, with lb.toml as a field. What docker answers is
    given; sleeping and waiting for the queue have no effect here. */
module SimpleScript {
  import opened Prelude
  import opened Registry
  import opened Rolling
  import opened RollingRuns
  import opened RollingAnswers
  import opened RollingUpdate

  lemma UrlsSnoc(c: Config, i: nat)
    requires i < |c|
    ensures Urls(c[..i + 1]) == Urls(c[..i]) + UrlsOf(c[i].backends)
  {
    assert c[..i + 1][..i] == c[..i];
  }

  lemma {:induction false} UrlsPrefix(c: Config, i: nat)
    requires i <= |c|
    ensures Urls(c[..i]) <= Urls(c)
  {
    if i < |c| {
      UrlsPrefix(c[..|c| - 1], i);
      assert c[..|c| - 1][..i] == c[..i];
    } else {
      assert c[..i] == c;
    }
  }

  /** The first URL that cannot be parsed decides. */
  lemma {:induction false} ErrorStays(urls: seq<string>, k: nat, targets: seq<string>)
    requires k <= |urls| && Collect(urls[..k], targets).Err?
    ensures Collect(urls, targets) == Collect(urls[..k], targets)
  {
    hide CollectOne;
    if k < |urls| {
      assert urls[..|urls| - 1][..k] == urls[..k];
      ErrorStays(urls[..|urls| - 1], k, targets);
    } else {
      assert urls[..k] == urls;
    }
  }

  /** The inner loop of collect_backend_urls, after the occurrences before it. */
  method CollectRoute(backends: seq<BackendConfig>, already: seq<string>, targets: seq<string>, ghost before: seq<string>)
    returns (r: Result<seq<string>, string>)
    requires Collect(before, targets) == Ok(already)
    ensures r == Collect(before + UrlsOf(backends), targets)
  {
    hide CollectOne, Collect;
    var seen := already;
    ghost var urls := before + UrlsOf(backends);
    assert urls[..|before|] == before;
    for j := 0 to |backends|
      invariant Collect(urls[..|before| + j], targets) == Ok(seen)
    {
      var url := backends[j].url;
      ghost var k := |before| + j;
      CollectSnoc(urls[..k], url, targets);
      assert urls[..k + 1] == urls[..k] + [url];
      var one := CollectOne(seen, url, targets);
      if one.Err? {
        ErrorStays(urls, k + 1, targets);
        return one;
      }
      seen := one.value;
    }
    assert urls[..|before| + |backends|] == urls;
    r := Ok(seen);
  }

  /** collect_backend_urls. */
  method CollectBackendUrls(config: Config, targets: seq<string>) returns (r: Result<seq<string>, string>)
    ensures r == Collect(Urls(config), targets)
  {
    r := Ok([]);
    assert config[..0] == [] && Urls([]) == [] && Collect([], targets) == r;
    hide Collect, Urls;
    for i := 0 to |config|
      invariant r.Ok? && Collect(Urls(config[..i]), targets) == r
    {
      r := CollectRoute(config[i].backends, r.value, targets, Urls(config[..i]));
      UrlsSnoc(config, i);
      if r.Err? {
        ghost var some, all := Urls(config[..i + 1]), Urls(config);
        UrlsPrefix(config, i + 1);
        assert all[..|some|] == some;
        ErrorStays(all, |some|, targets);
        return;
      }
    }
    assert config[..|config|] == config;
  }

  /** The occurrences of a URL before place (i, j) of the file: whether there are any, whether all are drained. */
  predicate SeenBefore(c: Config, url: string, i: int, j: int) {
    exists a, b :: 0 <= a < |c| && 0 <= b < |c[a].backends| && (a < i || (a == i && b < j)) && c[a].backends[b].url == url
  }

  predicate DrainedBefore(c: Config, url: string, i: int, j: int) {
    forall a, b :: 0 <= a < |c| && 0 <= b < |c[a].backends| && (a < i || (a == i && b < j)) && c[a].backends[b].url == url
      ==> c[a].backends[b].drain
  }

  lemma PlaceLooked(c: Config, url: string, i: int, j: int)
    requires InConfig(c, i, j)
    ensures SeenBefore(c, url, i, j + 1) <==> SeenBefore(c, url, i, j) || c[i].backends[j].url == url
    ensures DrainedBefore(c, url, i, j + 1) <==> DrainedBefore(c, url, i, j) && (c[i].backends[j].url == url ==> c[i].backends[j].drain)
  {
  }

  lemma RouteLooked(c: Config, url: string, i: int)
    requires 0 <= i < |c|
    ensures SeenBefore(c, url, i + 1, 0) <==> SeenBefore(c, url, i, |c[i].backends|)
    ensures DrainedBefore(c, url, i + 1, 0) <==> DrainedBefore(c, url, i, |c[i].backends|)
  {
  }

  /** is_drained, which compares two counters. */
  method CountsDrained(config: Config, url: string) returns (r: bool)
    ensures r <==> IsDrained(config, url)
  {
    hide SeenBefore, DrainedBefore;
    var occurrences, drained := 0, 0;
    assert !SeenBefore(config, url, 0, 0) && DrainedBefore(config, url, 0, 0) by { NothingLooked(config, url); }
    for i := 0 to |config|
      invariant 0 <= drained <= occurrences
      invariant occurrences > 0 <==> SeenBefore(config, url, i, 0)
      invariant drained == occurrences <==> DrainedBefore(config, url, i, 0)
    {
      var backends := config[i].backends;
      for j := 0 to |backends|
        invariant 0 <= drained <= occurrences
        invariant occurrences > 0 <==> SeenBefore(config, url, i, j)
        invariant drained == occurrences <==> DrainedBefore(config, url, i, j)
      {
        PlaceLooked(config, url, i, j);
        if backends[j].url == url {
          occurrences := occurrences + 1;
          if backends[j].drain {
            drained := drained + 1;
          }
        }
      }
      RouteLooked(config, url, i);
    }
    AllLooked(config, url);
    r := occurrences > 0 && drained == occurrences;
  }

  lemma NothingLooked(c: Config, url: string)
    ensures !SeenBefore(c, url, 0, 0) && DrainedBefore(c, url, 0, 0)
  {
  }

  lemma AllLooked(c: Config, url: string)
    ensures SeenBefore(c, url, |c|, 0) <==> Occurs(c, url)
    ensures SeenBefore(c, url, |c|, 0) && DrainedBefore(c, url, |c|, 0) <==> IsDrained(c, url)
  {
  }

  /** The edit of set_drain_everywhere in one route, one entry at a time. */
  method EditBackends(backends: seq<BackendConfig>, url: string, drain: bool) returns (edited: seq<BackendConfig>, touched: nat)
    ensures edited == FlipAll(backends, url, drain)
    ensures touched == multiset(UrlsOf(backends))[url]
  {
    edited, touched := backends, 0;
    for j := 0 to |backends|
      invariant |edited| == |backends|
      invariant forall k :: 0 <= k < j ==> edited[k] == Flip(backends[k], url, drain)
      invariant forall k :: j <= k < |backends| ==> edited[k] == backends[k]
      invariant touched == multiset(UrlsOf(backends)[..j])[url]
    {
      assert UrlsOf(backends)[..j + 1] == UrlsOf(backends)[..j] + [backends[j].url];
      if edited[j].url == url {
        edited := edited[j := edited[j].(drain := drain)];
        touched := touched + 1;
      }
    }
    assert UrlsOf(backends)[..|backends|] == UrlsOf(backends);
  }

  /** And in all routes, with the number of entries touched. */
  method EditDrain(config: Config, url: string, drain: bool) returns (edited: Config, touched: nat)
    ensures edited == SetDrain(config, url, drain)
    ensures touched == multiset(Urls(config))[url]
  {
    hide FlipAll, UrlsOf;
    edited, touched := config, 0;
    for i := 0 to |config|
      invariant |edited| == |config|
      invariant forall k :: 0 <= k < i ==> edited[k] == SetDrain(config, url, drain)[k]
      invariant forall k :: i <= k < |config| ==> edited[k] == config[k]
      invariant touched == multiset(Urls(config[..i]))[url]
    {
      var backends, n := EditBackends(edited[i].backends, url, drain);
      edited := edited[i := edited[i].(backends := backends)];
      touched := touched + n;
      UrlsSnoc(config, i);
    }
    assert config[..|config|] == config;
  }

  /** build_restart_order. */
  method BuildRestartOrder(config: Config, urls: seq<string>) returns (order: seq<string>)
    ensures order == Order(ByUrl(), config, urls)
  {
    hide Members, IsDrained;
    ghost var d := DrainedKeys(ByUrl(), config, urls);
    var drained: seq<string>, active: seq<string> := [], [];
    assert urls[..0] == [] && Members(urls[..0], d, true) == [] && Members(urls[..0], d, false) == [] by {
      NoMembers(d);
    }
    for i := 0 to |urls|
      invariant drained == Members(urls[..i], d, true) && active == Members(urls[..i], d, false)
    {
      var url := urls[i];
      MembersSnoc(urls[..i], url, d, true);
      MembersSnoc(urls[..i], url, d, false);
      assert urls[..i + 1] == urls[..i] + [url];
      var isDrained := CountsDrained(config, url);
      assert isDrained <==> url in d;
      if isDrained {
        drained := drained + [url];
      } else {
        active := active + [url];
      }
    }
    assert urls[..|urls|] == urls;
    order := drained + active;
  }

  lemma NoMembers(d: set<string>)
    ensures Members([], d, true) == [] && Members([], d, false) == []
  {
  }

  datatype Status =
    | Completed
    | NoTargets               // exit 1
    | BadUrl(badUrl: string)  // ValueError
    | CommandFailed           // docker build, kill or compose returned an error
    | Unhealthy(url: string)  // exit 1, the target stays drained

  class Script {
    const targets: seq<string>
    const doBuild: bool
    var file: Config
    ghost var effects: seq<Effect<string>>

    constructor (targets: seq<string>, doBuild: bool, file: Config)
      ensures this.targets == targets && this.doBuild == doBuild && this.file == file && effects == []
    {
      this.targets, this.doBuild, this.file, effects := targets, doBuild, file, [];
    }

    /** Edits a config read before, writes it and signals tinylb; the signal may fail. */
    method SetDrainEverywhere(config: Config, url: string, drain: bool, signal: bool)
      modifies this
      ensures file == SetDrain(config, url, drain)
      ensures effects == old(effects) + [Write(file)] + if signal then [Reload] else []
    {
      var edited, touched := EditDrain(config, url, drain);
      file := edited;
      effects := effects + [Write(file)];
      if signal {
        effects := effects + [Reload];
      }
    }

    /** One round of the loop of rolling_update, with docker's answers about the target. */
    method RollOne(url: string, answers: Answers) returns (status: Status)
      modifies this
      ensures var step, cut := StepTrace(ByUrl(), old(file), url), Done(ByUrl(), old(file), url, answers);
        effects == old(effects) + step[..cut] && file == FileAt(old(file), step[..cut])
      ensures status.Completed? <==> Positive(ByUrl(), old(file), url, answers)
      ensures status == Unhealthy(url) <==>
        Signalled(ByUrl(), old(file), url, answers) && answers.restart && "healthy" !in answers.statuses
      ensures status.Completed? || status.CommandFailed? || status == Unhealthy(url)
    {
      hide SetDrain, IsDrained, FileAt, StepTrace, DrainSteps;
      ghost var step := StepTrace(ByUrl(), file, url);
      ghost var pre := |DrainSteps(ByUrl(), file, url)|;
      StepCuts(ByUrl(), file, url);
      var alreadyDrained := CountsDrained(file, url);
      if !alreadyDrained {
        SetDrainEverywhere(file, url, true, answers.drainSignal);
        assert effects == old(effects) + step[..if answers.drainSignal then 2 else 1];
        if !answers.drainSignal {
          return CommandFailed;
        }
      }
      effects := effects + [Restart(url)];
      assert effects == old(effects) + step[..pre + 1];
      if !answers.restart {
        return CommandFailed;
      }
      var healthy := WaitHealthy(answers.statuses);
      if !healthy {
        return Unhealthy(url);
      }
      SetDrainEverywhere(file, url, false, answers.undrainSignal);
      assert effects == old(effects) + step[..if answers.undrainSignal then pre + 3 else pre + 2];
      status := if answers.undrainSignal then Completed else CommandFailed;
    }

    /** rolling_update, with docker's answers about the build and each target. */
    method RollingUpdate(built: bool, answers: string -> Answers) returns (status: Status)
      modifies this
      ensures match Collect(Urls(old(file)), targets)
        case Err(url) => status == BadUrl(url) && file == old(file) && effects == old(effects)
        case Ok(urls) =>
          if urls == [] then status == NoTargets && file == old(file) && effects == old(effects)
          else if doBuild && !built then status == CommandFailed && file == old(file) && effects == old(effects)
          else
            var order := Order(ByUrl(), old(file), urls);
            var run := RunUnder(ByUrl(), old(file), order, answers);
            && effects == old(effects) + run && file == FileAt(old(file), run)
            && (status.Completed? <==> run == FullRun(ByUrl(), old(file), urls))
            && (status.Unhealthy? <==> EndsUnhealthy(ByUrl(), old(file), order, answers))
            && (status.Unhealthy? ==> run != [] && run[|run| - 1] == Restart(status.url))
            && (status.Completed? || status.CommandFailed? || status.Unhealthy?)
    {
      hide *;
      var collected := CollectBackendUrls(file, targets);
      if collected.Err? {
        return BadUrl(collected.error);
      }
      var urls := collected.value;
      if urls == [] {
        return NoTargets;
      }
      if doBuild && !built {
        return CommandFailed;
      }
      ghost var start := file;
      var order := BuildRestartOrder(file, urls);
      StartedMeans(ByUrl(), start, urls);
      NothingDone(ByUrl(), start, order);
      RunIsPrefix(ByUrl(), start, order, answers);
      for i := 0 to |order|
        invariant effects == old(effects) + Trace(ByUrl(), start, order[..i])
        invariant file == FileAfter(ByUrl(), start, order[..i])
        invariant forall p :: 0 <= p < i ==> Positive(ByUrl(), FileAfter(ByUrl(), start, order[..p]), order[p], answers(order[p]))
      {
        status := RollOne(order[i], answers(order[i]));
        DoneWhole(ByUrl(), FileAfter(ByUrl(), start, order[..i]), order[i], answers(order[i]));
        PartDone(ByUrl(), start, order, answers, i);
        if !status.Completed? {
          if status.Unhealthy? {
            UnhealthyLast(ByUrl(), start, order, answers);
          }
          return;
        }
      }
      AllDone(ByUrl(), start, order, answers);
      status := Completed;
    }
  }
}
