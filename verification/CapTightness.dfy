/** The connection bound of Requests is exact: for every cap and every number of requests in the window
    some run reaches it. So max_connections is a hard cap exactly when selections are serialized. */
module CapTightness {
  import opened Prelude
  import opened Hosts
  import opened Selection
  import opened Registry
  import opened Requests

  /** One route with one backend of cap m, which has g connections. */
  function WorldWith(m: Usize, g: Usize): World {
    World([View("b", m, false, true, g, 0)], [Group("h", Exact("h"), [0])], [0])
  }

  /** Request i when the first g hold guards, the next c are chosen and the rest are idle. */
  function PcAt(i: nat, g: nat, c: nat): Pc {
    if i < g then Guarded(0) else if i < g + c then Chosen(0) else Idle
  }

  function Threads(n: nat, g: nat, c: nat): (threads: seq<Pc>)
    ensures |threads| == n && forall i :: 0 <= i < n ==> threads[i] == PcAt(i, g, c)
  {
    if n == 0 then [] else Threads(n - 1, g, c) + [PcAt(n - 1, g, c)]
  }

  function Shape(m: Usize, n: nat, g: Usize, c: nat): State { State(WorldWith(m, g), Threads(n, g, c)) }

  /** The same with request t somewhere else. */
  function Mid(m: Usize, n: nat, g: Usize, c: nat, t: nat, pc: Pc): State
    requires t < n
  {
    var s := Shape(m, n, g, c);
    s.(threads := s.threads[t := pc])
  }

  lemma {:induction false} WindowCount(n: nat, g: nat, c: nat)
    ensures Count(Threads(n, g, c), WindowOn(0)) == if n <= g then 0 else if n <= g + c then n - g else c
  {
    hide WindowOn, InWindow, PcAt;
    if n > 0 {
      WindowCount(n - 1, g, c);
      hide Count;
      OneMoreInWindow(Threads(n - 1, g, c), n - 1, g, c);
    }
  }

  lemma OneMoreInWindow(threads: seq<Pc>, i: nat, g: nat, c: nat)
    ensures Count(threads + [PcAt(i, g, c)], WindowOn(0)) == Count(threads, WindowOn(0)) + Bit(g <= i < g + c)
  {
    hide PcAt, WindowOn, InWindow;
    CountSnoc(threads, PcAt(i, g, c), WindowOn(0));
    LastInWindow(i, g, c);
  }

  lemma LastInWindow(i: nat, g: nat, c: nat)
    ensures WindowOn(0)(PcAt(i, g, c)) <==> g <= i < g + c
  {
  }

  lemma WindowInShape(n: nat, g: nat, c: nat)
    requires g + c <= n
    ensures Count(Threads(n, g, c), WindowOn(0)) == c
  {
    WindowCount(n, g, c);
  }

  lemma MidIsModest(m: Usize, n: nat, g: Usize, c: nat, t: nat, pc: Pc, k: nat)
    requires g + c <= t < n && c + 1 <= k
    ensures Modest(Mid(m, n, g, c, t, pc), 0, m, k)
  {
    WindowInShape(n, g, c);
    CountUpdate(Threads(n, g, c), t, pc, WindowOn(0));
  }

  lemma RouteToH(m: Usize, g: Usize)
    ensures Route(WorldWith(m, g), "h") == Routed(0)
  {
    assert BeforeColon("h") == "h";
    assert Lower("h") == "h";
    assert KindsOf(WorldWith(m, g)) == [Exact("h")];
    assert FirstExact([Exact("h")], "h") == Some(0);
  }

  /** The schedule leads from s to t without the cap or the window of object 0 being exceeded. */
  predicate Leads(s: State, schedule: seq<Action>, t: State, m: nat, k: nat) {
    ModestRun(s, schedule, 0, m, k) && Exec(s, schedule) == t
  }

  lemma {:induction false} LeadsOn(s: State, a: seq<Action>, t: State, b: seq<Action>, u: State, m: nat, k: nat)
    requires Leads(s, a, t, m, k) && Leads(t, b, u, m, k)
    ensures Leads(s, a + b, u, m, k)
    decreases |a|
  {
    if a == [] {
      assert a + b == b;
    } else {
      LeadsOn(Next(s, a[0]), a[1..], t, b, u, m, k);
      assert (a + b)[1..] == a[1..] + b;
    }
  }

  lemma LeadsNowhere(s: State, m: nat, k: nat)
    requires Modest(s, 0, m, k)
    ensures Leads(s, [], s, m, k)
  {
  }

  lemma LeadsOne(s: State, a: Action, m: nat, k: nat)
    requires Modest(s, 0, m, k) && Modest(Next(s, a), 0, m, k)
    ensures Leads(s, [a], Next(s, a), m, k)
  {
    assert [a][1..] == [];
    assert Exec(Next(s, a), []) == Next(s, a);
  }

  /** An arrival and the six steps of a scan over the one backend. */
  function ScanBy(t: nat): seq<Action> { ScanPrefix(t, 7) }

  lemma OneStep(m: Usize, n: nat, g: Usize, c: nat, t: nat, before: Pc, a: Action, after: Pc, k: nat)
    requires g + c <= t < n && c + 1 <= k
    requires (a == Arrive(t, "h") && before == Idle && after == Routed(0))
          || (a == Step(t) && after == ScanStep(WorldWith(m, g), before))
    ensures Leads(Mid(m, n, g, c, t, before), [a], Mid(m, n, g, c, t, after), m, k)
  {
    hide ScanStep, Route, Modest, WorldWith, Leads;
    RouteToH(m, g);
    MidIsModest(m, n, g, c, t, before, k);
    MidIsModest(m, n, g, c, t, after, k);
    var s := Mid(m, n, g, c, t, before);
    assert Next(s, a) == Mid(m, n, g, c, t, after) by {
      assert s.threads[t := after] == Threads(n, g, c)[t := after];
    }
    LeadsOne(s, a, m, k);
  }

  lemma MidEnds(m: Usize, n: nat, g: Usize, c: nat)
    requires g + c < n
    ensures Mid(m, n, g, c, g + c, Idle) == Shape(m, n, g, c)
    ensures Mid(m, n, g, c, g + c, Chosen(0)) == Shape(m, n, g, c + 1)
  {
    var s := Shape(m, n, g, c);
    assert s.threads[g + c := Idle] == s.threads;
    assert s.threads[g + c := Chosen(0)] == Threads(n, g, c + 1);
  }

  /** The places a scan of the one backend goes through. */
  function Place(g: Usize, i: nat): Pc {
    match i
    case 0 => Idle
    case 1 => Routed(0)
    case 2 => At([0], None, USIZE_MAX)
    case 3 => Undrained([0], None, USIZE_MAX)
    case 4 => Sound([0], None, USIZE_MAX)
    case 5 => Counted(g, [0], None, USIZE_MAX)
    case 6 => At([], Some(0), g)
    case _ => Chosen(0)
  }

  lemma PlaceStep(m: Usize, g: Usize, i: nat)
    requires g < m && 1 <= i < 7
    ensures ScanStep(WorldWith(m, g), Place(g, i)) == Place(g, i + 1)
  {
    assert [0][1..] == [];
  }

  function ScanPrefix(t: nat, i: nat): seq<Action> {
    if i == 0 then [] else ScanPrefix(t, i - 1) + [if i == 1 then Arrive(t, "h") else Step(t)]
  }

  lemma {:induction false} ScanReaches(m: Usize, n: nat, g: Usize, c: nat, k: nat, i: nat)
    requires g < m && g + c < n && c + 1 <= k && i <= 7
    ensures Leads(Mid(m, n, g, c, g + c, Idle), ScanPrefix(g + c, i), Mid(m, n, g, c, g + c, Place(g, i)), m, k)
  {
    hide Leads, Mid, ScanStep, WorldWith;
    var t := g + c;
    var s := Mid(m, n, g, c, t, Idle);
    if i == 0 {
      MidIsModest(m, n, g, c, t, Idle, k);
      LeadsNowhere(s, m, k);
    } else {
      ScanReaches(m, n, g, c, k, i - 1);
      var a := if i == 1 then Arrive(t, "h") else Step(t);
      if i > 1 {
        PlaceStep(m, g, i - 1);
      }
      OneStep(m, n, g, c, t, Place(g, i - 1), a, Place(g, i), k);
      LeadsOn(s, ScanPrefix(t, i - 1), Mid(m, n, g, c, t, Place(g, i - 1)), [a], Mid(m, n, g, c, t, Place(g, i)), m, k);
    }
  }

  /** While there is room, a whole scan gets the next request chosen. */
  lemma ScanChooses(m: Usize, n: nat, g: Usize, c: nat, k: nat)
    requires g < m && g + c < n && c + 1 <= k
    ensures Leads(Shape(m, n, g, c), ScanBy(g + c), Shape(m, n, g, c + 1), m, k)
  {
    hide Leads, Mid, Shape, ScanPrefix;
    ScanReaches(m, n, g, c, k, 7);
    MidEnds(m, n, g, c);
  }

  lemma ShapeIsModest(m: Usize, n: nat, g: Usize, c: nat, k: nat)
    requires g + c <= n && c <= k
    ensures Modest(Shape(m, n, g, c), 0, m, k)
  {
    WindowInShape(n, g, c);
  }

  lemma TakeGuardHere(m: Usize, n: nat, g: Usize, c: nat)
    requires g < USIZE_MAX && g + c <= n && 1 <= c
    ensures Next(Shape(m, n, g, c), TakeGuard(g)) == Shape(m, n, g + 1, c - 1)
  {
    var threads := Threads(n, g, c);
    assert threads[g] == Chosen(0);
    assert threads[g := Guarded(0)] == Threads(n, g + 1, c - 1);
    hide Threads;
  }

  lemma GuardTaken(m: Usize, n: nat, g: Usize, c: nat, k: nat)
    requires g < USIZE_MAX && g + c <= n && 1 <= c <= k
    ensures Leads(Shape(m, n, g, c), [TakeGuard(g)], Shape(m, n, g + 1, c - 1), m, k)
  {
    hide Leads, Modest, Shape, Next;
    ShapeIsModest(m, n, g, c, k);
    ShapeIsModest(m, n, g + 1, c - 1, k);
    TakeGuardHere(m, n, g, c);
    LeadsOne(Shape(m, n, g, c), TakeGuard(g), m, k);
  }

  // One after another: scan, take the guard.
  function Fill(g: nat): seq<Action> {
    if g == 0 then [] else Fill(g - 1) + (ScanBy(g - 1) + [TakeGuard(g - 1)])
  }

  // All at once: everybody scans ...
  function ScanMany(g: nat, c: nat): seq<Action> {
    if c == 0 then [] else ScanMany(g, c - 1) + ScanBy(g + c - 1)
  }

  // ... and then everybody takes a guard.
  function TakeMany(g: nat, c: nat): seq<Action> {
    if c == 0 then [] else TakeMany(g, c - 1) + [TakeGuard(g + c - 1)]
  }

  lemma {:induction false} FillReaches(m: Usize, n: nat, g: Usize, k: nat)
    requires g <= m && g <= n && k >= 1
    ensures Leads(Shape(m, n, 0, 0), Fill(g), Shape(m, n, g, 0), m, k)
  {
    hide Leads, Shape, ScanBy;
    var s := Shape(m, n, 0, 0);
    if g == 0 {
      ShapeIsModest(m, n, 0, 0, k);
      LeadsNowhere(s, m, k);
    } else {
      var before, chosen, after := Shape(m, n, g - 1, 0), Shape(m, n, g - 1, 1), Shape(m, n, g, 0);
      FillReaches(m, n, g - 1, k);
      ScanChooses(m, n, g - 1, 0, k);
      GuardTaken(m, n, g - 1, 1, k);
      LeadsOn(before, ScanBy(g - 1), chosen, [TakeGuard(g - 1)], after, m, k);
      LeadsOn(s, Fill(g - 1), before, ScanBy(g - 1) + [TakeGuard(g - 1)], after, m, k);
    }
  }

  lemma {:induction false} ScanManyReaches(m: Usize, n: nat, g: Usize, c: nat, k: nat)
    requires g < m && g + c <= n && c <= k
    ensures Leads(Shape(m, n, g, 0), ScanMany(g, c), Shape(m, n, g, c), m, k)
  {
    hide Leads, Shape, ScanBy;
    var s := Shape(m, n, g, 0);
    if c == 0 {
      ShapeIsModest(m, n, g, 0, k);
      LeadsNowhere(s, m, k);
    } else {
      ScanManyReaches(m, n, g, c - 1, k);
      ScanChooses(m, n, g, c - 1, k);
      LeadsOn(s, ScanMany(g, c - 1), Shape(m, n, g, c - 1), ScanBy(g + c - 1), Shape(m, n, g, c), m, k);
    }
  }

  lemma {:induction false} TakeManyReaches(m: Usize, n: nat, g: Usize, all: nat, c: nat, k: nat)
    requires g + all <= n && c <= all <= k && g + all <= USIZE_MAX
    ensures Leads(Shape(m, n, g, all), TakeMany(g, c), Shape(m, n, g + c, all - c), m, k)
  {
    hide Leads, Shape;
    var s := Shape(m, n, g, all);
    if c == 0 {
      ShapeIsModest(m, n, g, all, k);
      LeadsNowhere(s, m, k);
    } else {
      TakeManyReaches(m, n, g, all, c - 1, k);
      GuardTaken(m, n, g + c - 1, all - c + 1, k);
      LeadsOn(s, TakeMany(g, c - 1), Shape(m, n, g + c - 1, all - c + 1), [TakeGuard(g + c - 1)],
              Shape(m, n, g + c, all - c), m, k);
    }
  }

  function WorstCase(m: nat, k: nat): seq<Action>
    requires m >= 1
  {
    Fill(m - 1) + ScanMany(m - 1, k) + TakeMany(m - 1, k)
  }

  lemma WorstCaseLeads(m: Usize, k: nat)
    requires m >= 1 && k >= 1 && m - 1 + k <= USIZE_MAX
    ensures var n := m - 1 + k; Leads(Shape(m, n, 0, 0), WorstCase(m, k), Shape(m, n, n, 0), m, k)
  {
    hide Leads, Shape, Fill, ScanMany, TakeMany;
    var n := m - 1 + k;
    var s := Shape(m, n, 0, 0);
    FillReaches(m, n, m - 1, k);
    ScanManyReaches(m, n, m - 1, k, k);
    TakeManyReaches(m, n, m - 1, k, k, k);
    LeadsOn(s, Fill(m - 1), Shape(m, n, m - 1, 0), ScanMany(m - 1, k), Shape(m, n, m - 1, k), m, k);
    LeadsOn(s, Fill(m - 1) + ScanMany(m - 1, k), Shape(m, n, m - 1, k), TakeMany(m - 1, k), Shape(m, n, n, 0), m, k);
  }

  /** The bound m - 1 + k is reached, whatever m and k. */
  lemma BoundIsReached(m: Usize, k: nat)
    requires m >= 1 && k >= 1 && m - 1 + k <= USIZE_MAX
    ensures var s := Shape(m, m - 1 + k, 0, 0);
      && Quiet(s) && ModestRun(s, WorstCase(m, k), 0, m, k)
      && ActiveOf(Exec(s, WorstCase(m, k)), 0) == m - 1 + k
  {
    hide ModestRun, Exec, WorstCase;
    WorstCaseLeads(m, k);
  }

  lemma {:induction false} ModestWeaker(s: State, schedule: seq<Action>, id: nat, m: nat, j: nat, k: nat)
    requires ModestRun(s, schedule, id, m, j) && j <= k
    ensures ModestRun(s, schedule, id, m, k)
    decreases |schedule|
  {
    if schedule != [] {
      ModestWeaker(Next(s, schedule[0]), schedule[1..], id, m, j, k);
    }
  }

  /** No run with caps up to m and at most k requests in the window exceeds m connections. */
  ghost predicate HardCap(m: nat, k: nat) {
    forall s: State, schedule: seq<Action>, id: nat :: Quiet(s) && ModestRun(s, schedule, id, m, k) ==>
      ActiveOf(Exec(s, schedule), id) <= m
  }

  /** One request in the window at a time: a hard cap. */
  lemma SerializedIsHard(m: nat)
    requires m >= 1
    ensures HardCap(m, 1)
  {
    hide Quiet, ModestRun, Exec, ActiveOf;
    forall s: State, schedule: seq<Action>, id: nat | Quiet(s) && ModestRun(s, schedule, id, m, 1)
      ensures ActiveOf(Exec(s, schedule), id) <= m
    {
      ConnectionBound(s, schedule, id, m, 1);
    }
  }

  lemma CapOn(m: nat, k: nat, s: State, schedule: seq<Action>)
    requires HardCap(m, k) && Quiet(s) && ModestRun(s, schedule, 0, m, k)
    ensures ActiveOf(Exec(s, schedule), 0) <= m
  {
  }

  /** A second one is enough to exceed it. */
  lemma SecondRequestExceeds(m: Usize, k: nat)
    requires m >= 1 && k >= 2 && m < USIZE_MAX
    ensures !HardCap(m, k)
  {
    hide Quiet, ModestRun, Exec, ActiveOf, WorstCase, Shape;
    var s, schedule := Shape(m, m - 1 + 2, 0, 0), WorstCase(m, 2);
    BoundIsReached(m, 2);
    ModestWeaker(s, schedule, 0, m, 2, k);
    if HardCap(m, k) {
      CapOn(m, k, s, schedule);
    }
  }

  /** max_connections is the hard cap of the documentation if, and only if, at most one request at a time
      is between loading the count and taking its guard. */
  lemma HardCapExactlyWhenSerialized(m: Usize, k: nat)
    requires m >= 1 && k >= 1 && m < USIZE_MAX
    ensures HardCap(m, k) <==> k == 1
  {
    hide HardCap;
    if k == 1 {
      SerializedIsHard(m);
    } else {
      SecondRequestExceeds(m, k);
    }
  }
}
