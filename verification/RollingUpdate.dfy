/** examples/rolling-update/simple.py: a target is a backend URL of one of the services, drained when every
    occurrence of the URL in the config is. */
module RollingUpdate {
  import opened Prelude
  import opened Registry
  import opened Rolling
  import opened RollingRuns
  import opened Containers
  import Hosts

  // ------------------------------------------------------------- reading the config

  predicate InConfig(c: Config, i: int, j: int) { 0 <= i < |c| && 0 <= j < |c[i].backends| }

  predicate Occurs(c: Config, url: string) {
    exists i, j :: 0 <= i < |c| && 0 <= j < |c[i].backends| && c[i].backends[j].url == url
  }

  /** is_drained: the URL occurs, and every occurrence has drain set. */
  predicate IsDrained(c: Config, url: string) {
    Occurs(c, url)
    && forall i, j :: 0 <= i < |c| && 0 <= j < |c[i].backends| && c[i].backends[j].url == url ==> c[i].backends[j].drain
  }

  function Flip(b: BackendConfig, url: string, drain: bool): BackendConfig {
    if b.url == url then b.(drain := drain) else b
  }

  function FlipAll(bs: seq<BackendConfig>, url: string, drain: bool): (r: seq<BackendConfig>)
    ensures |r| == |bs| && forall j :: 0 <= j < |bs| ==> r[j] == Flip(bs[j], url, drain)
  {
    seq(|bs|, j requires 0 <= j < |bs| => Flip(bs[j], url, drain))
  }

  /** The config with drain set or cleared on every occurrence of the URL. */
  function SetDrain(c: Config, url: string, drain: bool): (r: Config)
    ensures |r| == |c|
    ensures forall i :: 0 <= i < |c| ==> r[i] == c[i].(backends := FlipAll(c[i].backends, url, drain))
  {
    seq(|c|, i requires 0 <= i < |c| => c[i].(backends := FlipAll(c[i].backends, url, drain)))
  }

  function ByUrl(): Rules<string> { Rules(Occurs, IsDrained, SetDrain) }

  lemma SetDrainEntry(c: Config, url: string, drain: bool, i: int, j: int)
    requires InConfig(c, i, j)
    ensures InConfig(SetDrain(c, url, drain), i, j)
    ensures SetDrain(c, url, drain)[i].backends[j] == Flip(c[i].backends[j], url, drain)
  {
  }

  lemma OccursAfter(c: Config, url: string, drain: bool, other: string)
    ensures Occurs(SetDrain(c, url, drain), other) <==> Occurs(c, other)
  {
    var t := SetDrain(c, url, drain);
    if Occurs(c, other) {
      var i, j :| 0 <= i < |c| && 0 <= j < |c[i].backends| && c[i].backends[j].url == other;
      SetDrainEntry(c, url, drain, i, j);
      assert t[i].backends[j].url == other;
    }
    if Occurs(t, other) {
      var i, j :| 0 <= i < |t| && 0 <= j < |t[i].backends| && t[i].backends[j].url == other;
      SetDrainEntry(c, url, drain, i, j);
      assert c[i].backends[j].url == other;
    }
  }

  /** Setting drain on a URL drains it, clearing undrains it, and no other URL is affected. */
  lemma SetDrainDrains(c: Config, url: string, drain: bool, other: string)
    ensures IsDrained(SetDrain(c, url, drain), url) <==> drain && Occurs(c, url)
    ensures other != url ==> (IsDrained(SetDrain(c, url, drain), other) <==> IsDrained(c, other))
  {
    var t := SetDrain(c, url, drain);
    OccursAfter(c, url, drain, url);
    OccursAfter(c, url, drain, other);
    hide SetDrain;
    forall i, j | 0 <= i < |c| && 0 <= j < |c[i].backends|
      ensures InConfig(t, i, j) && t[i].backends[j] == Flip(c[i].backends[j], url, drain)
    {
      SetDrainEntry(c, url, drain, i, j);
    }
    if Occurs(t, url) {
      var i, j :| 0 <= i < |t| && 0 <= j < |t[i].backends| && t[i].backends[j].url == url;
      assert t[i].backends[j].drain == drain;
    }
    if other != url {
      assert forall i, j :: 0 <= i < |t| && 0 <= j < |t[i].backends| ==>
        t[i].backends[j].url == c[i].backends[j].url
        && (c[i].backends[j].url == other ==> t[i].backends[j].drain == c[i].backends[j].drain);
      forall i, j | 0 <= i < |c| && 0 <= j < |c[i].backends| && c[i].backends[j].url == other
        ensures t[i].backends[j].url == other && t[i].backends[j].drain == c[i].backends[j].drain
      {
      }
    }
  }

  lemma ByUrlIsLawful()
    ensures Lawful(ByUrl())
  {
    hide Occurs, IsDrained, SetDrain;
    var r := ByUrl();
    forall c: Config, k: string, l: string, d: bool
      ensures r.drained(r.mark(c, k, d), k) == (d && r.present(c, k))
      ensures k != l ==> r.drained(r.mark(c, k, d), l) == r.drained(c, l)
      ensures r.present(r.mark(c, k, d), l) == r.present(c, l)
    {
      SetDrainDrains(c, k, d, l);
      OccursAfter(c, k, d, l);
    }
  }

  // ------------------------------------------------------------------- the targets

  function AfterScheme(url: string): Option<string> {
    if "http://" <= url then Some(url[7..]) else if "https://" <= url then Some(url[8..]) else None
  }

  /** url_to_service: the pattern https?://([^:/]+) at the start of the URL. */
  function ServiceOf(url: string): Option<string> {
    var rest := AfterScheme(url);
    if rest.None? || Until(rest.value, {':', '/'}) == "" then None else Some(Until(rest.value, {':', '/'}))
  }

  predicate IsHttp(scheme: string) { scheme == "http://" || scheme == "https://" }

  /** The service of an http or https URL is what stands between the scheme and the first ':' or '/', if anything. */
  lemma ServiceOfIs(scheme: string, service: string, rest: string)
    requires IsHttp(scheme) && service != "" && ':' !in service && '/' !in service
    requires rest == "" || rest[0] == ':' || rest[0] == '/'
    ensures ServiceOf(scheme + (service + rest)) == Some(service)
  {
    AfterSchemeIs(scheme, service + rest);
    UntilIs(service + rest, {':', '/'}, service);
    hide AfterScheme, Until;
  }

  lemma AfterSchemeIs(scheme: string, rest: string)
    requires IsHttp(scheme)
    ensures AfterScheme(scheme + rest) == Some(rest)
  {
    var url := scheme + rest;
    assert url[..|scheme|] == scheme && url[|scheme|..] == rest;
    if scheme == "https://" {
      assert url[4] == 's' && "http://"[4] == ':';
    }
  }

  lemma SchemeThen(url: string) returns (scheme: string, after: string)
    requires AfterScheme(url).Some?
    ensures IsHttp(scheme) && url == scheme + after && AfterScheme(url) == Some(after)
  {
    scheme, after := if "http://" <= url then "http://" else "https://", AfterScheme(url).value;
  }

  /** And only such URLs have one. */
  lemma ServiceOfMeans(url: string) returns (scheme: string, rest: string)
    requires ServiceOf(url).Some?
    ensures IsHttp(scheme) && (rest == "" || rest[0] == ':' || rest[0] == '/')
    ensures var service := ServiceOf(url).value;
      url == scheme + (service + rest) && service != "" && ':' !in service && '/' !in service
  {
    var after;
    scheme, after := SchemeThen(url);
    hide AfterScheme, Until;
    var service := ServiceOf(url).value;
    rest := after[|service|..];
    assert after == service + rest;
  }

  function UrlsOf(bs: seq<BackendConfig>): (r: seq<string>)
    ensures |r| == |bs| && forall j :: 0 <= j < |bs| ==> r[j] == bs[j].url
  {
    seq(|bs|, j requires 0 <= j < |bs| => bs[j].url)
  }

  /** Every occurrence of a URL, in the order of the file. */
  function Urls(c: Config): seq<string> {
    if c == [] then [] else Urls(c[..|c| - 1]) + UrlsOf(c[|c| - 1].backends)
  }

  /** collect_backend_urls over the occurrences; an error is the URL that cannot be parsed. */
  function Collect(urls: seq<string>, targets: seq<string>): Result<seq<string>, string> {
    if urls == [] then Ok([])
    else
      var n := |urls| - 1;
      var before := Collect(urls[..n], targets);
      if before.Err? then before else CollectOne(before.value, urls[n], targets)
  }

  function CollectOne(seen: seq<string>, url: string, targets: seq<string>): Result<seq<string>, string> {
    if url == "" || url in seen then Ok(seen)
    else if ServiceOf(url).None? then Err(url)
    else if ServiceOf(url).value in targets then Ok(seen + [url])
    else Ok(seen)
  }

  predicate Parses(url: string) { url == "" || ServiceOf(url).Some? }

  predicate IsTarget(url: string, targets: seq<string>) {
    url != "" && ServiceOf(url).Some? && ServiceOf(url).value in targets
  }

  /** Each URL of a target service once, in order of first occurrence; an error exactly when some URL cannot be
      parsed, and then the first such. */
  lemma {:induction false} CollectIsTargets(urls: seq<string>, targets: seq<string>)
    ensures var r := Collect(urls, targets);
      && (r.Ok? <==> forall u :: u in urls ==> Parses(u))
      && (r.Ok? ==> Unique(r.value) && forall u :: u in r.value <==> u in urls && IsTarget(u, targets))
      && (r.Err? ==> r.error in urls && !Parses(r.error))
  {
    if urls != [] {
      var n := |urls| - 1;
      var before := Collect(urls[..n], targets);
      CollectIsTargets(urls[..n], targets);
      assert urls == urls[..n] + [urls[n]];
      assert forall u :: u in urls <==> u in urls[..n] || u == urls[n];
      if before.Ok? {
        CollectOneMore(before.value, urls[n], targets);
      }
      hide CollectOne, Parses, IsTarget;
    }
  }

  lemma CollectOneMore(seen: seq<string>, url: string, targets: seq<string>)
    requires Unique(seen) && forall u :: u in seen ==> IsTarget(u, targets)
    ensures var r := CollectOne(seen, url, targets);
      && (r.Ok? <==> Parses(url))
      && (r.Err? ==> r.error == url)
      && (r.Ok? ==> Unique(r.value) && forall u :: u in r.value <==> u in seen || (u == url && IsTarget(url, targets)))
  {
    hide ServiceOf;
  }

  lemma {:induction false} CollectGrows(urls: seq<string>, targets: seq<string>, k: nat)
    requires k <= |urls| && Collect(urls, targets).Ok?
    ensures Collect(urls[..k], targets).Ok? && Collect(urls[..k], targets).value <= Collect(urls, targets).value
  {
    hide ServiceOf;
    if k < |urls| {
      CollectGrows(urls[..|urls| - 1], targets, k);
      assert urls[..|urls| - 1][..k] == urls[..k];
    } else {
      assert urls[..k] == urls;
    }
  }

  lemma CollectSnoc(urls: seq<string>, url: string, targets: seq<string>)
    ensures Collect(urls + [url], targets)
         == var before := Collect(urls, targets); if before.Err? then before else CollectOne(before.value, url, targets)
  {
    assert (urls + [url])[..|urls|] == urls;
    hide CollectOne;
  }

  lemma {:induction false} UrlsAreOccurrences(c: Config, url: string)
    ensures url in Urls(c) <==> Occurs(c, url)
  {
    if c != [] {
      var n := |c| - 1;
      UrlsAreOccurrences(c[..n], url);
      assert Occurs(c, url) <==> Occurs(c[..n], url) || url in UrlsOf(c[n].backends) by {
        if Occurs(c[..n], url) {
          var i, j :| 0 <= i < |c[..n]| && 0 <= j < |c[..n][i].backends| && c[..n][i].backends[j].url == url;
          assert c[i].backends[j].url == url;
        }
        if url in UrlsOf(c[n].backends) {
          var j :| 0 <= j < |c[n].backends| && UrlsOf(c[n].backends)[j] == url;
          assert c[n].backends[j].url == url;
        }
        if Occurs(c, url) {
          var i, j :| 0 <= i < |c| && 0 <= j < |c[i].backends| && c[i].backends[j].url == url;
          if i < n {
            assert c[..n][i].backends[j].url == url;
          } else {
            assert UrlsOf(c[n].backends)[j] == url;
          }
        }
      }
    }
  }

  /** Drain flags do not change what is collected, so every re-run finds the same targets. */
  lemma {:induction false} SetDrainKeepsUrls(c: Config, url: string, drain: bool)
    ensures Urls(SetDrain(c, url, drain)) == Urls(c)
  {
    if c != [] {
      var n := |c| - 1;
      SetDrainKeepsUrls(c[..n], url, drain);
      assert SetDrain(c, url, drain)[..n] == SetDrain(c[..n], url, drain);
      FlipKeepsUrls(c[n].backends, url, drain);
      hide SetDrain, FlipAll;
    }
  }

  lemma FlipKeepsUrls(bs: seq<BackendConfig>, url: string, drain: bool)
    ensures UrlsOf(FlipAll(bs, url, drain)) == UrlsOf(bs)
  {
  }

  /** The collected targets make a run. */
  lemma CollectedStarts(c: Config, targets: seq<string>)
    requires Collect(Urls(c), targets).Ok?
    ensures Started(ByUrl(), c, Collect(Urls(c), targets).value)
  {
    hide Collect, Occurs, IsTarget, Lawful, Urls;
    ByUrlIsLawful();
    CollectIsTargets(Urls(c), targets);
    forall u | u in Collect(Urls(c), targets).value
      ensures Occurs(c, u)
    {
      UrlsAreOccurrences(c, u);
    }
  }

  // ------------------------------------------------------------------ main results

  ghost function HasUrls(urls: seq<string>): Config -> bool { (f: Config) => Urls(f) == urls }

  lemma MarkKeepsUrls(urls: seq<string>)
    ensures MarkKeeps(ByUrl(), HasUrls(urls))
  {
    hide Urls, SetDrain;
    forall c: Config, k: string, d: bool | Urls(c) == urls
      ensures Urls(SetDrain(c, k, d)) == urls
    {
      SetDrainKeepsUrls(c, k, d);
    }
  }

  /** With this config no traffic is sent to the service's container, from any route. */
  predicate ServiceQuiet(c: Config, service: string) {
    forall i, j :: 0 <= i < |c| && 0 <= j < |c[i].backends| && Reaches(c[i].backends[j].url, service)
      ==> c[i].backends[j].drain
  }

  ghost predicate UrlQuiet(c: Config, v: string, service: string) {
    Occurs(c, v) && Reaches(v, service) ==> IsDrained(c, v)
  }

  lemma QuietIsDrained(c: Config, service: string)
    ensures ServiceQuiet(c, service) <==> forall v :: UrlQuiet(c, v, service)
  {
    hide Reaches;
    if forall v :: UrlQuiet(c, v, service) {
      forall i, j | 0 <= i < |c| && 0 <= j < |c[i].backends| && Reaches(c[i].backends[j].url, service)
        ensures c[i].backends[j].drain
      {
        assert UrlQuiet(c, c[i].backends[j].url, service);
      }
    }
  }

  /** A container is recreated only while the file has all backends drained that reach it. */
  ghost predicate RestartsIsolated(c: Config, urls: seq<string>) {
    FileHoldsAtRestarts(QuietAt, c, FullRun(ByUrl(), c, urls))
  }

  ghost predicate QuietAt(f: Config, url: string) {
    ServiceOf(url).Some? && ServiceQuiet(f, ServiceOf(url).value)
  }

  /** Another URL v that reaches the service of target u is drained from the start and, if it is a target too,
      has its turn later, u being drained from the start as well. */
  ghost predicate Apart(c: Config, urls: seq<string>, u: string, v: string) {
    Occurs(c, v) && ServiceOf(u).Some? && Reaches(v, ServiceOf(u).value) ==> DrainedDuring(ByUrl(), c, urls, u, v)
  }

  ghost predicate Alone(c: Config, urls: seq<string>, u: string) { forall v: string :: Apart(c, urls, u, v) }

  ghost predicate AllApart(c: Config, urls: seq<string>) { forall u: string :: u in urls ==> Alone(c, urls, u) }

  lemma FileAtKeepsUrls(c: Config, urls: seq<string>, i: nat)
    requires i <= |FullRun(ByUrl(), c, urls)|
    ensures Urls(FileAt(c, FullRun(ByUrl(), c, urls)[..i])) == Urls(c)
  {
    hide Urls, FileAt, Trace, Order;
    var p := HasUrls(Urls(c));
    MarkKeepsUrls(Urls(c));
    TraceKeeps(ByUrl(), p, c, Order(ByUrl(), c, urls));
    FileAtKeeps(p, c, FullRun(ByUrl(), c, urls)[..i]);
  }

  /** At one restart. */
  lemma QuietAtRestart(c: Config, urls: seq<string>, i: nat)
    requires Started(ByUrl(), c, urls)
    requires i < |FullRun(ByUrl(), c, urls)| && FullRun(ByUrl(), c, urls)[i].Restart?
    ensures var t := FullRun(ByUrl(), c, urls);
      ServiceOf(t[i].key).Some? ==> (QuietAt(FileAt(c, t[..i]), t[i].key) <==> Alone(c, urls, t[i].key))
  {
    hide Reaches, ServiceOf, FileAt, FullRun, Started, Occurs, IsDrained, ServiceQuiet, DrainedDuring, Urls;
    var t := FullRun(ByUrl(), c, urls);
    var f, x := FileAt(c, t[..i]), t[i].key;
    FileAtKeepsUrls(c, urls, i);
    if ServiceOf(x).Some? {
      QuietIsDrained(f, ServiceOf(x).value);
      forall v: string
        ensures UrlQuiet(f, v, ServiceOf(x).value) <==> Apart(c, urls, x, v)
      {
        UrlsAreOccurrences(f, v);
        UrlsAreOccurrences(c, v);
        DrainedAtRestart(ByUrl(), c, urls, i, v);
      }
    }
  }

  lemma QuietForetold(c: Config, targets: seq<string>)
    requires Collect(Urls(c), targets).Ok?
    ensures var urls := Collect(Urls(c), targets).value;
      Foretold(QuietAt, u => Alone(c, urls, u), c, FullRun(ByUrl(), c, urls))
  {
    var urls := Collect(Urls(c), targets).value;
    CollectedStarts(c, targets);
    CollectIsTargets(Urls(c), targets);
    hide Collect, Urls, FileAt, FullRun, Started, QuietAt, Alone, ServiceOf;
    var t := FullRun(ByUrl(), c, urls);
    forall i | 0 <= i < |t| && t[i].Restart?
      ensures QuietAt(FileAt(c, t[..i]), t[i].key) <==> Alone(c, urls, t[i].key)
    {
      RestartedWhileDrained(ByUrl(), c, urls, i);
      assert IsTarget(t[i].key, targets);
      QuietAtRestart(c, urls, i);
    }
  }

  lemma UrlsInOrder(c: Config, targets: seq<string>)
    requires Collect(Urls(c), targets).Ok?
    ensures var urls := Collect(Urls(c), targets).value;
      var order := Order(ByUrl(), c, urls);
      Unique(order) && FullRun(ByUrl(), c, urls) == Trace(ByUrl(), c, order) && forall u :: u in order <==> u in urls
  {
    var urls := Collect(Urls(c), targets).value;
    CollectedStarts(c, targets);
    hide Unique, Collect, Urls, Order, Trace, FullRun, Started;
    StartedMeans(ByUrl(), c, urls);
  }

  /** In the file restarts are isolated exactly when the URLs that reach the service of a target are the target's
      own and ones that are drained all along. */
  lemma RestartsIsolatedExactly(c: Config, targets: seq<string>)
    requires Collect(Urls(c), targets).Ok?
    ensures var urls := Collect(Urls(c), targets).value;
      RestartsIsolated(c, urls) <==> AllApart(c, urls)
  {
    hide Collect, Urls, FullRun, Order, QuietAt, Alone, Trace, Unique, Foretold, FileHoldsAtRestarts;
    var urls := Collect(Urls(c), targets).value;
    UrlsInOrder(c, targets);
    QuietForetold(c, targets);
    FileHoldsExactly(ByUrl(), QuietAt, u => Alone(c, urls, u), c, Order(ByUrl(), c, urls));
  }

  // --------------------------------------------------------- where the traffic goes

  /** No traffic is sent to a container from the moment it is recreated until it is healthy: what counts is the
      config that tinylb has loaded. */
  ghost predicate TrafficQuiet(loaded: Config, c: Config, urls: seq<string>, polls: set<nat>) {
    HoldsAtRestarts(QuietAt, loaded, c, FullRun(ByUrl(), c, urls), polls)
  }

  /** Traffic is kept away exactly when the URLs that reach the service of a target are the target's own and ones
      that are drained all along, except that the first target, if tinylb may be behind the file on it, has to be
      quiet in what tinylb has loaded. */
  lemma TrafficQuietExactly(loaded: Config, c: Config, targets: seq<string>, polls: set<nat>)
    requires Collect(Urls(c), targets).Ok?
    ensures var urls := Collect(Urls(c), targets).value;
      var order := Order(ByUrl(), c, urls);
      TrafficQuiet(loaded, c, urls, polls)
      <==> (Behind(ByUrl(), c, order, polls) ==> QuietAt(loaded, order[0]))
           && forall u :: ByFile(ByUrl(), c, order, polls, u) ==> Alone(c, urls, u)
  {
    hide Collect, Urls, FullRun, Order, QuietAt, Alone, Trace, Unique, Foretold, HoldsAtRestarts, ByFile, IsDrained;
    var urls := Collect(Urls(c), targets).value;
    UrlsInOrder(c, targets);
    QuietForetold(c, targets);
    HoldsExactly(ByUrl(), QuietAt, u => Alone(c, urls, u), loaded, c, Order(ByUrl(), c, urls), polls);
  }

  /** Started with tinylb up to date, for all targets alike. */
  lemma TrafficQuietFromFile(c: Config, targets: seq<string>, polls: set<nat>)
    requires Collect(Urls(c), targets).Ok?
    ensures var urls := Collect(Urls(c), targets).value;
      TrafficQuiet(c, c, urls, polls) <==> AllApart(c, urls)
  {
    hide Collect, Urls, FullRun, Order, Trace, FileHoldsAtRestarts, HoldsAtRestarts, AllApart;
    var urls := Collect(Urls(c), targets).value;
    UrlsInOrder(c, targets);
    RestartsIsolatedExactly(c, targets);
    HoldsFromFile(ByUrl(), QuietAt, c, Order(ByUrl(), c, urls), polls);
  }

  predicate OneUrlPerService(urls: seq<string>) {
    forall a, b :: 0 <= a < |urls| && 0 <= b < |urls| && ServiceOf(urls[a]) == ServiceOf(urls[b]) ==> a == b
  }

  /** The host in the URL is what the script takes for the service. */
  predicate Plain(url: string) {
    ServiceOf(url).Some? && HostOf(url) == ServiceOf(url) && Hosts.Lower(ServiceOf(url).value) == ServiceOf(url).value
  }

  ghost predicate AllPlain(c: Config) { forall v :: Occurs(c, v) ==> v == "" || Plain(v) }

  /** In a config whose URLs are plain that is so exactly when no two target URLs are of one service. */
  lemma OneUrlPerServiceExactly(c: Config, targets: seq<string>)
    requires Collect(Urls(c), targets).Ok? && AllPlain(c)
    ensures var urls := Collect(Urls(c), targets).value;
      RestartsIsolated(c, urls) <==> OneUrlPerService(urls)
  {
    hide Collect, Urls, Alone, RestartsIsolated, AllPlain, Unique;
    var urls := Collect(Urls(c), targets).value;
    RestartsIsolatedExactly(c, targets);
    UrlsInOrder(c, targets);
    if OneUrlPerService(urls) {
      OneUrlApart(c, targets);
    } else {
      var u, v := SharedService(c, targets, {});
    }
  }

  /** And the traffic is kept away exactly when in addition the first target is quiet in what tinylb has loaded,
      unless tinylb is sure to have loaded the file. */
  lemma OneUrlTrafficExactly(loaded: Config, c: Config, targets: seq<string>, polls: set<nat>)
    requires Collect(Urls(c), targets).Ok? && AllPlain(c)
    ensures var urls := Collect(Urls(c), targets).value;
      var order := Order(ByUrl(), c, urls);
      TrafficQuiet(loaded, c, urls, polls)
      <==> OneUrlPerService(urls) && (Behind(ByUrl(), c, order, polls) ==> QuietAt(loaded, order[0]))
  {
    hide Collect, Urls, Alone, TrafficQuiet, AllPlain, QuietAt, Unique, IsDrained, Order;
    var urls := Collect(Urls(c), targets).value;
    TrafficQuietExactly(loaded, c, targets, polls);
    UrlsInOrder(c, targets);
    if OneUrlPerService(urls) {
      OneUrlApart(c, targets);
    } else {
      var u, v := SharedService(c, targets, polls);
    }
  }

  lemma SharedService(c: Config, targets: seq<string>, polls: set<nat>) returns (u: string, v: string)
    requires Collect(Urls(c), targets).Ok? && AllPlain(c) && !OneUrlPerService(Collect(Urls(c), targets).value)
    ensures var urls := Collect(Urls(c), targets).value;
      u in urls && !Alone(c, urls, u) && ByFile(ByUrl(), c, Order(ByUrl(), c, urls), polls, u)
  {
    var urls := Collect(Urls(c), targets).value;
    var order := Order(ByUrl(), c, urls);
    PlainTargets(c, targets);
    UrlsInOrder(c, targets);
    CollectIsTargets(Urls(c), targets);
    hide Collect, Urls, ServiceOf, Plain, Occurs, IsDrained, Alone, Order;
    var a: nat, b: nat :| a < |urls| && b < |urls| && ServiceOf(urls[a]) == ServiceOf(urls[b]) && a < b;
    u, v := urls[b], urls[a];
    assert Before(urls, v, u);
    NotBothBefore(urls, v, u);
    if Behind(ByUrl(), c, order, polls) && u == order[0] {
      u, v := v, u;
      if IsDrained(c, u) {
        FirstIsFirst(c, urls, u);
        NotBothBefore(urls, v, u);
      }
    }
    assert u != v;
    hide Before, Unique;
    SharedNotAlone(c, urls, u, v);
  }

  lemma FirstIsFirst(c: Config, urls: seq<string>, y: string)
    requires Unique(urls) && y in urls && IsDrained(c, y)
    ensures var order := Order(ByUrl(), c, urls);
      order != [] && IsDrained(c, order[0]) && y != order[0] ==> Before(urls, order[0], y)
  {
    hide RecoveryOrder, Before, Unique, IsDrained;
    var d, order := DrainedKeys(ByUrl(), c, urls), Order(ByUrl(), c, urls);
    assert y in d;
    if order != [] && IsDrained(c, order[0]) && y != order[0] {
      DrainedToCome(urls, d, 0, y);
    }
  }

  /** Two targets of one service are not apart, unless one is drained all along until its turn. */
  lemma SharedNotAlone(c: Config, urls: seq<string>, u: string, v: string)
    requires v in urls && u != v && !(IsDrained(c, u) && IsDrained(c, v) && Before(urls, u, v))
    ensures ServiceOf(u) == ServiceOf(v) && Plain(u) && Plain(v) && Occurs(c, v) ==> !Alone(c, urls, u)
  {
    hide ServiceOf, HostOf, Hosts.Lower, Occurs, IsDrained, Before;
    if Alone(c, urls, u) {
      assert Apart(c, urls, u, v);
    }
  }

  lemma PlainTargets(c: Config, targets: seq<string>)
    requires Collect(Urls(c), targets).Ok? && AllPlain(c)
    ensures forall u :: u in Collect(Urls(c), targets).value ==> Occurs(c, u) && Plain(u)
  {
    CollectIsTargets(Urls(c), targets);
    hide Collect, Urls, Occurs, Plain;
    forall u | u in Collect(Urls(c), targets).value
      ensures Occurs(c, u)
    {
      UrlsAreOccurrences(c, u);
    }
  }

  lemma OneUrlApart(c: Config, targets: seq<string>)
    requires Collect(Urls(c), targets).Ok? && AllPlain(c) && OneUrlPerService(Collect(Urls(c), targets).value)
    ensures AllApart(c, Collect(Urls(c), targets).value)
  {
    hide Collect, Urls, OneUrlPerService, Apart, AllPlain;
    var urls := Collect(Urls(c), targets).value;
    forall u: string, v: string | u in urls
      ensures Apart(c, urls, u, v)
    {
      TargetApart(c, targets, urls, u, v);
    }
  }

  lemma TargetApart(c: Config, targets: seq<string>, urls: seq<string>, u: string, v: string)
    requires Collect(Urls(c), targets) == Ok(urls) && OneUrlPerService(urls) && u in urls && AllPlain(c)
    ensures Apart(c, urls, u, v)
  {
    hide Collect, Urls, ServiceOf, Reaches, Occurs, OneUrlPerService, AllPlain, IsDrained;
    if Occurs(c, v) && ServiceOf(u).Some? && Reaches(v, ServiceOf(u).value) {
      NothingElseReaches(c, targets, urls, u, v);
    }
  }

  lemma NothingElseReaches(c: Config, targets: seq<string>, urls: seq<string>, u: string, v: string)
    requires Collect(Urls(c), targets) == Ok(urls) && OneUrlPerService(urls) && u in urls && AllPlain(c)
    ensures IsTarget(u, targets) && Plain(u)
    ensures Occurs(c, v) ==> (Reaches(v, ServiceOf(u).value) <==> v == u)
  {
    CollectIsTargets(Urls(c), targets);
    UrlsAreOccurrences(c, u);
    UrlsAreOccurrences(c, v);
    EmptyReachesNothing();
    hide Collect, Urls, ServiceOf, HostOf, Occurs, IsDrained, Hosts.Lower;
    if Occurs(c, v) && Reaches(v, ServiceOf(u).value) {
      assert IsTarget(u, targets) && Plain(u) && v != "" && Plain(v);
      assert ServiceOf(v) == ServiceOf(u) && IsTarget(v, targets);
      assert v in urls && v == u;
    }
  }

  lemma EmptyReachesNothing()
    ensures HostOf("").None?
  {
  }

  // ------------------------------------------------------------------ over re-runs

  /** Then a config with the same URLs keeps a target's container quiet exactly when the target is drained in it. */
  lemma QuietIsOwnDrain(loaded: Config, c: Config, targets: seq<string>, urls: seq<string>, u: string)
    requires Collect(Urls(c), targets) == Ok(urls) && OneUrlPerService(urls) && u in urls && AllPlain(c)
    requires Urls(loaded) == Urls(c)
    ensures QuietAt(loaded, u) <==> IsDrained(loaded, u)
  {
    hide Collect, Urls, ServiceOf, HostOf, Reaches, Occurs, IsDrained, Hosts.Lower, ServiceQuiet, OneUrlPerService, AllPlain;
    NothingElseReaches(c, targets, urls, u, u);
    var service := ServiceOf(u).value;
    forall v: string
      ensures Occurs(loaded, v) <==> Occurs(c, v)
      ensures Occurs(c, v) ==> (Reaches(v, service) <==> v == u)
    {
      UrlsAreOccurrences(loaded, v);
      UrlsAreOccurrences(c, v);
      NothingElseReaches(c, targets, urls, u, v);
    }
    CollectIsTargets(Urls(c), targets);
    UrlsAreOccurrences(c, u);
    QuietIsDrained(loaded, service);
    assert UrlQuiet(loaded, u, service) <==> IsDrained(loaded, u);
  }

  /** After any number of aborted runs and loads of tinylb's own, from a file and a loaded config with the same
      plain URLs, the next run keeps traffic away exactly when no two target URLs are of one service and tinylb
      is not behind the file on the first target, or catches up before the run. */
  lemma RerunTrafficExactly(s: Known, targets: seq<string>, attempts: seq<Attempt>, polls: set<nat>)
    requires Collect(Urls(s.file), targets).Ok? && AllPlain(s.file) && Urls(s.loaded) == Urls(s.file)
    ensures var urls := Collect(Urls(s.file), targets).value;
      var e := Reruns(ByUrl(), s, urls, attempts);
      && Collect(Urls(e.file), targets) == Ok(urls)
      && (TrafficQuiet(e.loaded, e.file, urls, polls)
          <==> OneUrlPerService(urls) && UpToDate(ByUrl(), e.loaded, e.file, urls, polls))
  {
    hide Collect, Urls, Occurs, IsDrained, Plain, QuietAt, TrafficQuiet, OneUrlPerService, Order, Reruns;
    var urls := Collect(Urls(s.file), targets).value;
    var e := Reruns(ByUrl(), s, urls, attempts);
    MarkKeepsUrls(Urls(s.file));
    RerunsKeep(ByUrl(), HasUrls(Urls(s.file)), s, urls, attempts);
    SameUrlsPlain(s.file, e.file);
    OneUrlTrafficExactly(e.loaded, e.file, targets, polls);
    UrlsInOrder(e.file, targets);
    var order := Order(ByUrl(), e.file, urls);
    if OneUrlPerService(urls) && order != [] {
      assert order[0] in urls;
      QuietIsOwnDrain(e.loaded, e.file, targets, urls, order[0]);
    }
  }

  lemma SameUrlsPlain(c: Config, f: Config)
    requires Urls(c) == Urls(f) && AllPlain(c)
    ensures AllPlain(f)
  {
    hide Urls, Occurs, Plain;
    forall v | Occurs(f, v)
      ensures Occurs(c, v)
    {
      UrlsAreOccurrences(f, v);
      UrlsAreOccurrences(c, v);
    }
  }

  /** So after a run that started with tinylb up to date and stopped anywhere, and without polls, the next run
      keeps traffic away exactly when no two target URLs are of one service and the stop was not between writing
      a drain and signalling it. */
  lemma StoppedTrafficExactly(c: Config, targets: seq<string>, cut: nat)
    requires Collect(Urls(c), targets).Ok? && AllPlain(c)
    ensures var urls := Collect(Urls(c), targets).value;
      var e := Attempted(ByUrl(), Known(c, c), urls, Attempt(cut, {}));
      TrafficQuiet(e.loaded, e.file, urls, {})
      <==> OneUrlPerService(urls) && !StopsBeforeSignal(ByUrl(), c, urls, cut)
  {
    hide Collect, Urls, AllPlain, TrafficQuiet, OneUrlPerService, StopsBeforeSignal, LoadedDrainedAtRestarts, UpToDate, Started, FullRun;
    var urls := Collect(Urls(c), targets).value;
    var stop := Min(cut, |FullRun(ByUrl(), c, urls)|);
    CollectedStarts(c, targets);
    OneAttempt(ByUrl(), Known(c, c), urls, Attempt(cut, {}));
    RerunTrafficExactly(Known(c, c), targets, [Attempt(cut, {})], {});
    UnsafeExactlyBeforeSignal(ByUrl(), c, urls, stop);
    StopsWithinRun(ByUrl(), c, urls, cut);
    DrainedTargetsBounded(ByUrl(), c, urls, stop);
    var e := Attempted(ByUrl(), Known(c, c), urls, Attempt(cut, {}));
    LoadedDrainedExactly(ByUrl(), e.loaded, e.file, urls, {});
  }

  // ------------------------------------------------------------ what an update leaves

  function Clear(b: BackendConfig, urls: seq<string>): BackendConfig { b.(drain := b.drain && b.url !in urls) }

  function ClearAll(bs: seq<BackendConfig>, urls: seq<string>): (r: seq<BackendConfig>)
    ensures |r| == |bs| && forall j :: 0 <= j < |bs| ==> r[j] == Clear(bs[j], urls)
  {
    seq(|bs|, j requires 0 <= j < |bs| => Clear(bs[j], urls))
  }

  /** The config with the drain flags of these URLs cleared and nothing else changed. */
  function Cleared(c: Config, urls: seq<string>): (r: Config)
    ensures |r| == |c|
    ensures forall i :: 0 <= i < |c| ==> r[i] == c[i].(backends := ClearAll(c[i].backends, urls))
  {
    seq(|c|, i requires 0 <= i < |c| => c[i].(backends := ClearAll(c[i].backends, urls)))
  }

  lemma ClearOneMore(bs: seq<BackendConfig>, urls: seq<string>, k: string)
    ensures FlipAll(ClearAll(bs, urls), k, false) == ClearAll(bs, urls + [k])
    ensures FlipAll(FlipAll(bs, k, true), k, false) == FlipAll(bs, k, false)
  {
    assert forall u :: u in urls + [k] <==> u in urls || u == k;
  }

  lemma ClearedOneMore(c: Config, urls: seq<string>, k: string)
    ensures SetDrain(Cleared(c, urls), k, false) == Cleared(c, urls + [k])
    ensures SetDrain(SetDrain(c, k, true), k, false) == SetDrain(c, k, false)
  {
    hide FlipAll, ClearAll;
    forall i | 0 <= i < |c|
      ensures SetDrain(Cleared(c, urls), k, false)[i] == Cleared(c, urls + [k])[i]
      ensures SetDrain(SetDrain(c, k, true), k, false)[i] == SetDrain(c, k, false)[i]
    {
      ClearOneMore(c[i].backends, urls, k);
    }
  }

  lemma ClearedNone(c: Config)
    ensures Cleared(c, []) == c
  {
    forall i | 0 <= i < |c|
      ensures ClearAll(c[i].backends, []) == c[i].backends
    {
    }
  }

  lemma {:induction false} FileAfterIsCleared(c: Config, order: seq<string>)
    ensures FileAfter(ByUrl(), c, order) == Cleared(c, order)
  {
    hide SetDrain, Cleared, IsDrained;
    if order == [] {
      ClearedNone(c);
    } else {
      var n := |order| - 1;
      FileAfterIsCleared(c, order[..n]);
      ClearedOneMore(c, order[..n], order[n]);
      ClearedOneMore(FileAfter(ByUrl(), c, order[..n]), [], order[n]);
      assert order == order[..n] + [order[n]];
    }
  }

  lemma SameCleared(c: Config, a: seq<string>, b: seq<string>)
    requires forall x :: x in a <==> x in b
    ensures Cleared(c, a) == Cleared(c, b)
  {
    forall i | 0 <= i < |c|
      ensures ClearAll(c[i].backends, a) == ClearAll(c[i].backends, b)
    {
    }
  }

  /** A completed update restarts each target once, and leaves in the file and in tinylb the original config
      with the targets' drain flags cleared. */
  lemma CompletedUpdate(loaded: Config, c: Config, targets: seq<string>, polls: set<nat>)
    requires Collect(Urls(c), targets).Ok? && Collect(Urls(c), targets).value != []
    ensures var urls := Collect(Urls(c), targets).value;
      var t := FullRun(ByUrl(), c, urls);
      && multiset(Restarts(t)) == multiset(urls)
      && FileAt(c, t) == LoadedAt(loaded, c, t, polls) == Cleared(c, urls)
  {
    hide *;
    var urls := Collect(Urls(c), targets).value;
    CollectedStarts(c, targets);
    FullRunFinishes(ByUrl(), loaded, c, urls, polls);
    StartedMeans(ByUrl(), c, urls);
    var order := Order(ByUrl(), c, urls);
    TraceEnds(ByUrl(), c, order);
    FileAfterIsCleared(c, order);
    SameCleared(c, order, urls);
  }
}
