/** The sampling loop of src/stats.rs, run beside requests that count errors and reloads that swap
    backends in and out. One sampler; every atomic operation is one step. */
module Sampler {
  import opened Prelude
  import opened Stats

  /** A backend object: removed ones keep their place, so that identity is the index. */
  datatype Backend = Backend(url: string, errors: nat)

  /** Where the sampler stands: the groups still to visit, the backends still to visit in the
      current group, and what it has read of the first of them. */
  datatype Walk =
    | Resting
    | AtGroup(groups: seq<nat>)
    | AtBackend(backends: seq<nat>, groups: seq<nat>)
    | Loaded(c: nat, backends: seq<nat>, groups: seq<nat>)
    | Swapped(url: string, c: nat, e: nat, backends: seq<nat>, groups: seq<nat>)

  /** backends: every object ever made; groups: the backend list of every group ever made; table:
      the groups in the registry. counted and pushed are histories. */
  datatype State = State(backends: seq<Backend>, groups: seq<seq<nat>>, table: seq<nat>, walk: Walk,
                         data: map<string, seq<Sample>>, counted: seq<string>, pushed: seq<(string, Sample)>)

  datatype Action =
    | CountError(id: nat)
    | NewBackend(url: string)
    | NewGroup
    | SetBackends(group: nat, ids: seq<nat>)    // a reload replaces one group's list
    | SetTable(newTable: seq<nat>)              // a reload replaces the groups
    | Tick
    | Proceed(t: nat, connections: nat)         // one step of the sampler; what it reads from clock and counter

  const INITIAL := State([], [], [], Resting, map[], [], [])

  function Ring(data: map<string, seq<Sample>>, url: string): seq<Sample> {
    if url in data then data[url] else []
  }

  function SamplerStep(s: State, t: nat, connections: nat): State {
    match s.walk
    case Resting => s
    case AtGroup(groups) =>
      if groups == [] then s.(walk := Resting)
      else if groups[0] < |s.groups| then s.(walk := AtBackend(s.groups[groups[0]], groups[1..]))
      else s.(walk := AtGroup(groups[1..]))
    case AtBackend(backends, groups) =>
      if backends == [] then s.(walk := AtGroup(groups))
      else s.(walk := Loaded(connections, backends, groups))
    case Loaded(c, backends, groups) =>
      if backends == [] then s.(walk := AtGroup(groups))
      else if backends[0] < |s.backends| then
        var b := s.backends[backends[0]];
        s.(backends := s.backends[backends[0] := b.(errors := 0)],
           walk := Swapped(b.url, c, b.errors, backends[1..], groups))
      else s.(walk := AtBackend(backends[1..], groups))
    case Swapped(url, c, e, backends, groups) =>
      var sample := Sample(t, c, e);
      s.(data := s.data[url := Recorded(Ring(s.data, url), sample)],
         pushed := s.pushed + [(url, sample)],
         walk := AtBackend(backends, groups))
  }

  /** A reload lists existing objects. */
  predicate Below(ids: seq<nat>, n: nat) { forall i :: 0 <= i < |ids| ==> ids[i] < n }

  function Next(s: State, a: Action): State {
    match a
    case CountError(id) =>
      if id < |s.backends| then
        var b := s.backends[id];
        s.(backends := s.backends[id := b.(errors := b.errors + 1)], counted := s.counted + [b.url])
      else s
    case NewBackend(url) => s.(backends := s.backends + [Backend(url, 0)])
    case NewGroup => s.(groups := s.groups + [[]])
    case SetBackends(group, ids) =>
      if group < |s.groups| && Below(ids, |s.backends|) then s.(groups := s.groups[group := ids]) else s
    case SetTable(newTable) => if Below(newTable, |s.groups|) then s.(table := newTable) else s
    case Tick => if s.walk.Resting? then s.(walk := AtGroup(s.table)) else s
    case Proceed(t, connections) => SamplerStep(s, t, connections)
  }

  function Exec(schedule: seq<Action>): State {
    if schedule == [] then INITIAL
    else Next(Exec(schedule[..|schedule| - 1]), schedule[|schedule| - 1])
  }

  // ------------------------------------------------------------------ measures

  /** Errors counted for a URL so far. */
  function Counted(counted: seq<string>, url: string): nat {
    if counted == [] then 0
    else Counted(counted[..|counted| - 1], url) + Bit(counted[|counted| - 1] == url)
  }

  /** Errors still in the counters of all objects with a URL, removed objects included. */
  function Outstanding(backends: seq<Backend>, url: string): nat {
    if backends == [] then 0
    else
      var b := backends[|backends| - 1];
      Outstanding(backends[..|backends| - 1], url) + (if b.url == url then b.errors else 0)
  }

  /** All samples ever pushed for a URL, in order. */
  function PushedTo(pushed: seq<(string, Sample)>, url: string): seq<Sample> {
    if pushed == [] then []
    else
      var p := pushed[|pushed| - 1];
      PushedTo(pushed[..|pushed| - 1], url) + (if p.0 == url then [p.1] else [])
  }

  function SumErrors(samples: seq<Sample>): nat {
    if samples == [] then 0 else SumErrors(samples[..|samples| - 1]) + samples[|samples| - 1].e
  }

  /** Errors taken out of a counter and not recorded yet. */
  function InHand(walk: Walk, url: string): nat {
    if walk.Swapped? && walk.url == url then walk.e else 0
  }

  function LastN(s: seq<Sample>, n: nat): seq<Sample> {
    if |s| <= n then s else s[|s| - n..]
  }

  // ---------------------------------------------------------------- invariants

  lemma {:induction false} OutstandingUpdate(backends: seq<Backend>, i: nat, errors: nat, url: string)
    requires i < |backends|
    ensures var b := backends[i];
      Outstanding(backends[i := b.(errors := errors)], url) + (if b.url == url then b.errors else 0)
      == Outstanding(backends, url) + (if b.url == url then errors else 0)
  {
    var front := backends[..|backends| - 1];
    var updated := backends[i := backends[i].(errors := errors)];
    if i < |backends| - 1 {
      OutstandingUpdate(front, i, errors, url);
      assert updated[..|backends| - 1] == front[i := backends[i].(errors := errors)];
    } else {
      assert updated[..|backends| - 1] == front;
    }
  }

  lemma Snocs(s: State, counted: string, backend: Backend, pushed: (string, Sample), url: string)
    ensures Counted(s.counted + [counted], url) == Counted(s.counted, url) + Bit(counted == url)
    ensures Outstanding(s.backends + [backend], url)
         == Outstanding(s.backends, url) + if backend.url == url then backend.errors else 0
    ensures PushedTo(s.pushed + [pushed], url) == PushedTo(s.pushed, url) + if pushed.0 == url then [pushed.1] else []
  {
    assert (s.counted + [counted])[..|s.counted|] == s.counted;
    assert (s.backends + [backend])[..|s.backends|] == s.backends;
    assert (s.pushed + [pushed])[..|s.pushed|] == s.pushed;
  }

  lemma SumSnoc(samples: seq<Sample>, s: Sample)
    ensures SumErrors(samples + [s]) == SumErrors(samples) + s.e
  {
    assert (samples + [s])[..|samples|] == samples;
  }

  predicate Conserved(s: State, url: string) {
    Counted(s.counted, url)
    == SumErrors(PushedTo(s.pushed, url)) + InHand(s.walk, url) + Outstanding(s.backends, url)
  }

  lemma ConservedStep(s: State, a: Action, url: string)
    requires Conserved(s, url)
    ensures Conserved(Next(s, a), url)
  {
    hide Outstanding, Counted, PushedTo, SumErrors;
    match a {
      case CountError(id) =>
        if id < |s.backends| {
          var b := s.backends[id];
          OutstandingUpdate(s.backends, id, b.errors + 1, url);
          Snocs(s, b.url, b, ("", Sample(0, 0, 0)), url);
        }
      case NewBackend(u) =>
        Snocs(s, "", Backend(u, 0), ("", Sample(0, 0, 0)), url);
      case Proceed(t, connections) =>
        if s.walk.Loaded? && s.walk.backends != [] && s.walk.backends[0] < |s.backends| {
          OutstandingUpdate(s.backends, s.walk.backends[0], 0, url);
        } else if s.walk.Swapped? {
          var sample := Sample(t, s.walk.c, s.walk.e);
          Snocs(s, "", Backend("", 0), (s.walk.url, sample), url);
          SumSnoc(PushedTo(s.pushed, url), sample);
          assert PushedTo(s.pushed, url) + [] == PushedTo(s.pushed, url);
        }
      case _ =>
    }
  }

  /** In every interleaving of errors, ticks and reloads no error is lost or sampled twice: the
      errors counted for a URL are those in all samples ever pushed for it, those in the sampler's
      hands, and those still in a counter. */
  lemma {:induction false} ErrorsAreConserved(schedule: seq<Action>, url: string)
    ensures var s := Exec(schedule);
      Counted(s.counted, url)
      == SumErrors(PushedTo(s.pushed, url)) + InHand(s.walk, url) + Outstanding(s.backends, url)
  {
    if schedule != [] {
      var front := schedule[..|schedule| - 1];
      ErrorsAreConserved(front, url);
      ConservedStep(Exec(front), schedule[|schedule| - 1], url);
    }
  }

  lemma RecordedIsLastN(samples: seq<Sample>, s: Sample)
    ensures Recorded(LastN(samples, 1440), s) == LastN(samples + [s], 1440)
  {
  }

  predicate Windowed(s: State, url: string) {
    && Ring(s.data, url) == LastN(PushedTo(s.pushed, url), 1440)
    && (url in s.data <==> PushedTo(s.pushed, url) != [])
  }

  lemma WindowedStep(s: State, a: Action, url: string)
    requires Windowed(s, url)
    ensures Windowed(Next(s, a), url)
  {
    hide PushedTo;
    if a.Proceed? && s.walk.Swapped? {
      var sample := Sample(a.t, s.walk.c, s.walk.e);
      Snocs(s, "", Backend("", 0), (s.walk.url, sample), url);
      RecordedIsLastN(PushedTo(s.pushed, url), sample);
      assert PushedTo(s.pushed, url) + [] == PushedTo(s.pushed, url);
    }
  }

  /** The ring of a URL is exactly the last 1440 of all samples pushed for it, in order, and a URL
      has a ring as soon as it has a sample. */
  lemma {:induction false} RingIsLastSamples(schedule: seq<Action>, url: string)
    ensures var s := Exec(schedule);
      && Ring(s.data, url) == LastN(PushedTo(s.pushed, url), 1440)
      && (url in s.data <==> PushedTo(s.pushed, url) != [])
  {
    if schedule != [] {
      var front := schedule[..|schedule| - 1];
      RingIsLastSamples(front, url);
      WindowedStep(Exec(front), schedule[|schedule| - 1], url);
    }
  }

  // --------------------------------------------------------- what a tour visits

  /** The groups in the table at every tick that found the sampler resting. */
  function Toured(schedule: seq<Action>): seq<nat> {
    if schedule == [] then []
    else
      var front, last := schedule[..|schedule| - 1], schedule[|schedule| - 1];
      Toured(front) + if last.Tick? && Exec(front).walk.Resting? then Exec(front).table else []
  }

  predicate ReadsGroup(s: State, a: Action) { a.Proceed? && s.walk.AtGroup? && s.walk.groups != [] && s.walk.groups[0] < |s.groups| }

  /** The groups whose list the sampler has read, in order. */
  function GroupsRead(schedule: seq<Action>): seq<nat> {
    if schedule == [] then []
    else
      var front, last := schedule[..|schedule| - 1], schedule[|schedule| - 1];
      GroupsRead(front) + if ReadsGroup(Exec(front), last) then [Exec(front).walk.groups[0]] else []
  }

  /** The objects of the lists it has read, as they were then, in order. */
  function Listed(schedule: seq<Action>): seq<nat> {
    if schedule == [] then []
    else
      var front, last := schedule[..|schedule| - 1], schedule[|schedule| - 1];
      Listed(front) + if ReadsGroup(Exec(front), last) then Exec(front).groups[Exec(front).walk.groups[0]] else []
  }

  function GroupsAhead(walk: Walk): seq<nat> { if walk.Resting? then [] else walk.groups }

  function BackendsAhead(walk: Walk): seq<nat> { if walk.Resting? || walk.AtGroup? then [] else walk.backends }

  function UrlsOf(backends: seq<Backend>, ids: seq<nat>): (r: seq<string>)
    requires Below(ids, |backends|)
    ensures |r| == |ids| && forall i :: 0 <= i < |ids| ==> r[i] == backends[ids[i]].url
  {
    seq(|ids|, i requires 0 <= i < |ids| => backends[ids[i]].url)
  }

  function PushedUrls(pushed: seq<(string, Sample)>): (r: seq<string>)
    ensures |r| == |pushed| && forall i :: 0 <= i < |pushed| ==> r[i] == pushed[i].0
  {
    seq(|pushed|, i requires 0 <= i < |pushed| => pushed[i].0)
  }

  /** Everything refers to existing objects. */
  ghost predicate InRange(s: State) {
    && (forall g :: 0 <= g < |s.groups| ==> Below(s.groups[g], |s.backends|))
    && Below(s.table, |s.groups|) && Below(GroupsAhead(s.walk), |s.groups|) && Below(BackendsAhead(s.walk), |s.backends|)
    && (s.walk.Loaded? ==> s.walk.backends != [])
  }

  /** Objects stay and keep their URLs. */
  ghost predicate SameUrls(s: State, t: State) {
    |s.backends| <= |t.backends| && forall id :: 0 <= id < |s.backends| ==> t.backends[id].url == s.backends[id].url
  }

  lemma InRangeStep(s: State, a: Action)
    requires InRange(s)
    ensures InRange(Next(s, a)) && SameUrls(s, Next(s, a))
  {
  }

  /** The URLs still to come in the current list, one of them perhaps in the sampler's hands. */
  function UrlsAhead(s: State): seq<string>
    requires Below(BackendsAhead(s.walk), |s.backends|)
  {
    (if s.walk.Swapped? then [s.walk.url] else []) + UrlsOf(s.backends, BackendsAhead(s.walk))
  }

  lemma UrlsStay(s: State, t: State, ids: seq<nat>)
    requires SameUrls(s, t) && Below(ids, |s.backends|)
    ensures UrlsOf(t.backends, ids) == UrlsOf(s.backends, ids)
  {
  }

  lemma GroupsStep(s: State, a: Action)
    requires InRange(s)
    ensures GroupsAhead(Next(s, a).walk)
         == if a.Tick? && s.walk.Resting? then s.table
            else if ReadsGroup(s, a) then GroupsAhead(s.walk)[1..] else GroupsAhead(s.walk)
  {
    hide Recorded;
  }

  /** The URLs a step adds to those pushed and to come: those of the list it reads. */
  function NewUrls(s: State, a: Action): seq<string>
    requires ReadsGroup(s, a) ==> Below(s.groups[s.walk.groups[0]], |s.backends|)
  {
    if ReadsGroup(s, a) then UrlsOf(s.backends, s.groups[s.walk.groups[0]]) else []
  }

  lemma OtherActionUrls(s: State, a: Action)
    requires InRange(s) && !a.Proceed?
    ensures InRange(Next(s, a)) && Next(s, a).pushed == s.pushed && UrlsAhead(Next(s, a)) == UrlsAhead(s)
  {
    InRangeStep(s, a);
    UrlsStay(s, Next(s, a), BackendsAhead(s.walk));
    assert Next(s, a).walk == s.walk || (s.walk.Resting? && Next(s, a).walk.AtGroup?);
  }

  lemma RecordUrls(s: State, a: Action)
    requires InRange(s) && a.Proceed? && s.walk.Swapped?
    ensures Next(s, a).pushed == s.pushed + [(s.walk.url, Sample(a.t, s.walk.c, s.walk.e))]
    ensures InRange(Next(s, a)) && UrlsAhead(s) == [s.walk.url] + UrlsAhead(Next(s, a))
  {
    InRangeStep(s, a);
    hide Recorded, InRange, UrlsOf;
    assert [] + UrlsOf(s.backends, s.walk.backends) == UrlsOf(s.backends, s.walk.backends);
  }

  lemma SwapUrls(s: State, a: Action)
    requires InRange(s) && a.Proceed? && s.walk.Loaded?
    ensures Next(s, a).pushed == s.pushed && InRange(Next(s, a)) && UrlsAhead(Next(s, a)) == UrlsAhead(s)
  {
    InRangeStep(s, a);
    var t, ids := Next(s, a), s.walk.backends;
    UrlsStay(s, t, ids[1..]);
    FirstUrl(s.backends, ids);
    hide UrlsOf, SameUrls, InRange, Recorded;
    assert [] + UrlsOf(s.backends, ids) == UrlsOf(s.backends, ids);
  }

  lemma FirstUrl(backends: seq<Backend>, ids: seq<nat>)
    requires Below(ids, |backends|) && ids != []
    ensures UrlsOf(backends, ids) == [backends[ids[0]].url] + UrlsOf(backends, ids[1..])
  {
  }

  lemma ReadUrls(s: State, a: Action)
    requires InRange(s) && a.Proceed? && !s.walk.Swapped? && !s.walk.Loaded?
    ensures InRange(Next(s, a)) && Next(s, a).pushed == s.pushed
    ensures UrlsAhead(Next(s, a)) == UrlsAhead(s) + NewUrls(s, a)
  {
    InRangeStep(s, a);
    NoUrls(s.backends);
    hide UrlsOf, SameUrls, Recorded;
  }

  lemma NoUrls(backends: seq<Backend>)
    ensures UrlsOf(backends, []) == []
  {
  }

  lemma PushOne(pushed: seq<(string, Sample)>, p: (string, Sample))
    ensures PushedUrls(pushed + [p]) == PushedUrls(pushed) + [p.0]
  {
  }

  /** One step reads a list, pushes a sample or leaves alone what is pushed and what is to come. */
  lemma VisitStep(s: State, a: Action)
    requires InRange(s)
    ensures InRange(Next(s, a))
    ensures PushedUrls(Next(s, a).pushed) + UrlsAhead(Next(s, a)) == PushedUrls(s.pushed) + UrlsAhead(s) + NewUrls(s, a)
  {
    NothingNew(s, a);
    var t := Next(s, a);
    hide *;
    if a.Proceed? && s.walk.Swapped? {
      RecordUrls(s, a);
      PushOne(s.pushed, (s.walk.url, Sample(a.t, s.walk.c, s.walk.e)));
      MoveOver(PushedUrls(s.pushed), [s.walk.url], UrlsAhead(t));
    } else if a.Proceed? && s.walk.Loaded? {
      SwapUrls(s, a);
      MoveOver(PushedUrls(s.pushed), UrlsAhead(s), []);
    } else if a.Proceed? {
      ReadUrls(s, a);
      MoveOver(PushedUrls(s.pushed), UrlsAhead(s), NewUrls(s, a));
    } else {
      OtherActionUrls(s, a);
      MoveOver(PushedUrls(s.pushed), UrlsAhead(s), []);
    }
  }

  lemma MoveOver<T>(p: seq<T>, u: seq<T>, v: seq<T>)
    ensures p + (u + v) == p + u + v
    ensures p + u + [] == p + u && p + (u + v) + [] == p + (u + v)
  {
  }

  lemma NothingNew(s: State, a: Action)
    requires InRange(s)
    ensures !a.Proceed? || !s.walk.AtGroup? ==> NewUrls(s, a) == []
  {
  }

  lemma UrlsConcat(backends: seq<Backend>, a: seq<nat>, b: seq<nat>)
    requires Below(a, |backends|) && Below(b, |backends|)
    ensures Below(a + b, |backends|) && UrlsOf(backends, a + b) == UrlsOf(backends, a) + UrlsOf(backends, b)
  {
  }

  /** The objects of the list that a step reads. */
  function NewIds(s: State, a: Action): seq<nat> { if ReadsGroup(s, a) then s.groups[s.walk.groups[0]] else [] }

  lemma NewIdsExist(s: State, a: Action)
    requires InRange(s)
    ensures Below(NewIds(s, a), |s.backends|) && UrlsOf(s.backends, NewIds(s, a)) == NewUrls(s, a)
  {
  }

  lemma VisitsStep(s: State, a: Action, listed: seq<nat>)
    requires InRange(s) && Below(listed, |s.backends|)
    requires PushedUrls(s.pushed) + UrlsAhead(s) == UrlsOf(s.backends, listed)
    ensures var t, more := Next(s, a), listed + NewIds(s, a);
      InRange(t) && Below(more, |t.backends|) && PushedUrls(t.pushed) + UrlsAhead(t) == UrlsOf(t.backends, more)
  {
    var t, more := Next(s, a), listed + NewIds(s, a);
    VisitStep(s, a);
    InRangeStep(s, a);
    NewIdsExist(s, a);
    UrlsConcat(s.backends, listed, NewIds(s, a));
    UrlsStay(s, t, more);
    MoreExist(s, t, more);
    hide *;
  }

  lemma MoreExist(s: State, t: State, ids: seq<nat>)
    requires SameUrls(s, t) && Below(ids, |s.backends|)
    ensures Below(ids, |t.backends|)
  {
  }

  /** In every interleaving the sampler goes through the groups that were in the table at each tick, in order, and
      pushes a sample for each object of each list it reads there, in order: what it has pushed and what it has
      still to visit are the groups and objects read. */
  lemma {:induction false} VisitsInOrder(schedule: seq<Action>)
    ensures VisitsHold(schedule)
  {
    hide *;
    if schedule == [] {
      NothingVisited();
    } else {
      var front, a := schedule[..|schedule| - 1], schedule[|schedule| - 1];
      VisitsInOrder(front);
      VisitsOneMore(front, a);
      assert schedule == front + [a];
    }
  }

  /** What has been pushed and what is still ahead are the groups and objects read. */
  ghost predicate VisitsHold(schedule: seq<Action>) {
    var s := Exec(schedule);
    && InRange(s) && Below(Listed(schedule), |s.backends|)
    && GroupsRead(schedule) + GroupsAhead(s.walk) == Toured(schedule)
    && PushedUrls(s.pushed) + UrlsAhead(s) == UrlsOf(s.backends, Listed(schedule))
  }

  lemma NothingVisited()
    ensures VisitsHold([])
  {
    NoUrls(INITIAL.backends);
    hide UrlsOf;
    assert PushedUrls([]) == [];
  }

  lemma VisitsOneMore(front: seq<Action>, a: Action)
    requires VisitsHold(front)
    ensures VisitsHold(front + [a])
  {
    var s := Exec(front);
    HistoryStep(front, a);
    hide Exec, Next, InRange, Below, Listed, GroupsRead, Toured, GroupsAhead, PushedUrls, UrlsAhead, UrlsOf, NewIds, ReadsGroup;
    VisitsStep(s, a, Listed(front));
    GroupsStep(s, a);
    AheadAfter(GroupsRead(front), GroupsAhead(s.walk), Toured(front), s.table, ReadsGroup(s, a), a.Tick? && s.walk.Resting?);
  }

  lemma AheadAfter(read: seq<nat>, ahead: seq<nat>, toured: seq<nat>, table: seq<nat>, visits: bool, ticks: bool)
    requires read + ahead == toured && (visits ==> ahead != [] && !ticks) && (ticks ==> ahead == [])
    ensures read + (if visits then [ahead[0]] else []) + (if ticks then table else if visits then ahead[1..] else ahead)
         == toured + if ticks then table else []
  {
    if visits {
      assert read + [ahead[0]] + ahead[1..] == read + ahead;
    }
  }

  /** How the histories grow. */
  lemma HistoryStep(front: seq<Action>, a: Action)
    ensures var s := Exec(front);
      && Exec(front + [a]) == Next(s, a)
      && Listed(front + [a]) == Listed(front) + NewIds(s, a)
      && GroupsRead(front + [a]) == GroupsRead(front) + (if ReadsGroup(s, a) then [GroupsAhead(s.walk)[0]] else [])
      && Toured(front + [a]) == Toured(front) + (if a.Tick? && s.walk.Resting? then s.table else [])
    ensures ReadsGroup(Exec(front), a) ==> a.Proceed? && GroupsAhead(Exec(front).walk) != []
    ensures a.Tick? && Exec(front).walk.Resting? ==> GroupsAhead(Exec(front).walk) == []
  {
    assert (front + [a])[..|front|] == front;
    hide Next;
  }

  /** So whenever it rests it has read the groups of all its tours, and sampled every object they listed. */
  lemma ToursAreComplete(schedule: seq<Action>)
    requires Exec(schedule).walk.Resting?
    ensures var s := Exec(schedule);
      && GroupsRead(schedule) == Toured(schedule)
      && Below(Listed(schedule), |s.backends|) && |s.pushed| == |Listed(schedule)|
      && forall i :: 0 <= i < |s.pushed| ==> s.pushed[i].0 == s.backends[Listed(schedule)[i]].url
  {
    VisitsInOrder(schedule);
    var s := Exec(schedule);
    assert PushedUrls(s.pushed) == UrlsOf(s.backends, Listed(schedule));
    hide Exec, Listed;
    forall i | 0 <= i < |s.pushed|
      ensures s.pushed[i].0 == s.backends[Listed(schedule)[i]].url
    {
      assert PushedUrls(s.pushed)[i] == UrlsOf(s.backends, Listed(schedule))[i];
    }
  }

  // ------------------------------------------------------ what one sample holds

  /** The errors counted on an object since the sampler last swapped its counter. */
  function SinceSwap(schedule: seq<Action>, id: nat): nat {
    if schedule == [] then 0
    else
      var front, last := schedule[..|schedule| - 1], schedule[|schedule| - 1];
      var s := Exec(front);
      if last.Proceed? && s.walk.Loaded? && s.walk.backends != [] && s.walk.backends[0] == id then 0
      else SinceSwap(front, id) + Bit(last == CountError(id) && id < |s.backends|)
  }

  /** In every interleaving an object's counter holds what was counted since the last swap. */
  lemma {:induction false} CounterIsSinceSwap(schedule: seq<Action>, id: nat)
    ensures var s := Exec(schedule);
      SinceSwap(schedule, id) == if id < |s.backends| then s.backends[id].errors else 0
  {
    if schedule != [] {
      CounterIsSinceSwap(schedule[..|schedule| - 1], id);
    }
  }

  /** The three steps of one visit, with whatever the sampler reads from the clock and the counters. */
  lemma VisitSamples(s: State, id: nat, rest: seq<nat>, groups: seq<nat>, a0: Action, a1: Action, a2: Action)
    requires s.walk == AtBackend([id] + rest, groups) && id < |s.backends| && a0.Proceed? && a1.Proceed? && a2.Proceed?
    ensures var b, sample := s.backends[id], Sample(a2.t, a0.connections, s.backends[id].errors);
      Next(Next(Next(s, a0), a1), a2)
      == s.(backends := s.backends[id := b.(errors := 0)], walk := AtBackend(rest, groups),
            data := s.data[b.url := Recorded(Ring(s.data, b.url), sample)], pushed := s.pushed + [(b.url, sample)])
  {
    var s1 := Next(s, a0);
    assert s1.walk == Loaded(a0.connections, [id] + rest, groups);
    var s2 := Next(s1, a1);
    assert ([id] + rest)[1..] == rest;
    assert s2.walk == Swapped(s.backends[id].url, a0.connections, s.backends[id].errors, rest, groups);
  }

  // ---------------------------------------------------------- a tour undisturbed

  /** The objects of the groups, one list after the other. */
  function AllListed(groups: seq<seq<nat>>, table: seq<nat>): seq<nat>
    requires Below(table, |groups|)
  {
    if table == [] then [] else groups[table[0]] + AllListed(groups, table[1..])
  }

  /** Two steps for each group and three for each object. */
  function StepsFor(groups: seq<seq<nat>>, table: seq<nat>): nat
    requires Below(table, |groups|)
  {
    if table == [] then 0 else 2 + 3 * |groups[table[0]]| + StepsFor(groups, table[1..])
  }

  function StepsLeft(s: State): nat
    requires Below(GroupsAhead(s.walk), |s.groups|)
  {
    match s.walk
    case Resting => 0
    case AtGroup(groups) => 1 + StepsFor(s.groups, groups)
    case AtBackend(backends, groups) => 3 * |backends| + 2 + StepsFor(s.groups, groups)
    case Loaded(_, backends, groups) => 3 * |backends| + 1 + StepsFor(s.groups, groups)
    case Swapped(_, _, _, backends, groups) => 3 * |backends| + 3 + StepsFor(s.groups, groups)
  }

  lemma {:induction false} AllInRange(s: State, table: seq<nat>)
    requires InRange(s) && Below(table, |s.groups|)
    ensures Below(AllListed(s.groups, table), |s.backends|)
  {
    if table != [] {
      AllInRange(s, table[1..]);
    }
  }

  /** Every URL still to be pushed in this tour. */
  ghost function ToCome(s: State): seq<string>
    requires InRange(s)
  {
    AllInRange(s, GroupsAhead(s.walk));
    UrlsAhead(s) + UrlsOf(s.backends, AllListed(s.groups, GroupsAhead(s.walk)))
  }

  lemma ProceedCloser(s: State, a: Action)
    requires InRange(s) && a.Proceed? && !s.walk.Resting?
    ensures InRange(Next(s, a)) && StepsLeft(Next(s, a)) == StepsLeft(s) - 1
  {
    InRangeStep(s, a);
    hide UrlsOf, Recorded;
  }

  /** What is to come later moves up when a list is read. */
  lemma LaterLists(s: State, a: Action)
    requires InRange(s) && a.Proceed?
    ensures var t := Next(s, a);
      && InRange(t) && t.groups == s.groups && SameUrls(s, t)
      && Below(GroupsAhead(t.walk), |s.groups|)
      && AllListed(s.groups, GroupsAhead(s.walk)) == NewIds(s, a) + AllListed(s.groups, GroupsAhead(t.walk))
  {
    InRangeStep(s, a);
    GroupsStep(s, a);
    hide InRange, SameUrls, UrlsOf, Recorded;
    if !ReadsGroup(s, a) {
      assert [] + AllListed(s.groups, GroupsAhead(s.walk)) == AllListed(s.groups, GroupsAhead(s.walk));
    }
  }

  lemma Regrouped<T>(p: seq<T>, u: seq<T>, q: seq<T>, v: seq<T>, n: seq<T>, later: seq<T>)
    requires q + v == p + u + n
    ensures q + (v + later) == p + (u + (n + later))
  {
    assert q + (v + later) == (q + v) + later;
    assert (p + u + n) + later == p + (u + (n + later));
  }

  lemma ToComeMeans(s: State)
    requires InRange(s)
    ensures var listed := AllListed(s.groups, GroupsAhead(s.walk));
      Below(listed, |s.backends|) && ToCome(s) == UrlsAhead(s) + UrlsOf(s.backends, listed)
  {
    AllInRange(s, GroupsAhead(s.walk));
  }

  lemma ProceedKeepsSum(s: State, a: Action)
    requires InRange(s) && a.Proceed?
    ensures InRange(Next(s, a))
    ensures PushedUrls(Next(s, a).pushed) + ToCome(Next(s, a)) == PushedUrls(s.pushed) + ToCome(s)
  {
    var t := Next(s, a);
    LaterLists(s, a);
    VisitStep(s, a);
    NewIdsExist(s, a);
    ToComeMeans(s);
    ToComeMeans(t);
    var later := AllListed(s.groups, GroupsAhead(t.walk));
    AllInRange(s, GroupsAhead(t.walk));
    UrlsStay(s, t, later);
    UrlsConcat(s.backends, NewIds(s, a), later);
    Regrouped(PushedUrls(s.pushed), UrlsAhead(s), PushedUrls(t.pushed), UrlsAhead(t), NewUrls(s, a), UrlsOf(s.backends, later));
    hide *;
  }

  function RunFrom(s: State, actions: seq<Action>): State
    decreases |actions|
  {
    if actions == [] then s else RunFrom(Next(s, actions[0]), actions[1..])
  }

  lemma {:induction false} ProceedsReachRest(s: State, actions: seq<Action>)
    requires InRange(s) && |actions| == StepsLeft(s) && forall i :: 0 <= i < |actions| ==> actions[i].Proceed?
    ensures var e := RunFrom(s, actions);
      e.walk.Resting? && PushedUrls(e.pushed) == PushedUrls(s.pushed) + ToCome(s)
    decreases |actions|
  {
    if actions == [] {
      assert s.walk.Resting?;
      assert ToCome(s) == [];
    } else {
      var t := Next(s, actions[0]);
      ProceedCloser(s, actions[0]);
      ProceedKeepsSum(s, actions[0]);
      hide Next, ToCome, StepsLeft, PushedUrls, InRange;
      ProceedsReachRest(t, actions[1..]);
    }
  }

  /** From rest, a tick and as many steps as there are places to visit, with nothing in between, come back to rest,
      and have pushed exactly one sample for each place of each listed group, in the order of the table. */
  lemma TourSamplesEveryPlace(s: State, steps: seq<Action>)
    requires InRange(s) && s.walk.Resting? && |steps| == 1 + StepsFor(s.groups, s.table)
    requires forall i :: 0 <= i < |steps| ==> steps[i].Proceed?
    ensures var e, places := RunFrom(Next(s, Tick), steps), AllListed(s.groups, s.table);
      && e.walk.Resting? && Below(places, |s.backends|)
      && PushedUrls(e.pushed) == PushedUrls(s.pushed) + UrlsOf(s.backends, places)
  {
    var t := Next(s, Tick);
    AllInRange(s, s.table);
    NoUrls(s.backends);
    assert t == s.(walk := AtGroup(s.table)) && InRange(t) && StepsLeft(t) == |steps|;
    var places := UrlsOf(s.backends, AllListed(s.groups, s.table));
    assert ToCome(t) == [] + [] + places == places;
    hide *;
    ProceedsReachRest(t, steps);
  }
}
