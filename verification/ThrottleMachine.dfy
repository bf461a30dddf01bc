/** src/throttle.rs under concurrency: any number of threads, each atomic
    operation one step, stale clock readings, and a window that may be
    re-configured between any two steps. */
module ThrottleMachine {
  import opened Prelude
  import opened Throttle

  /** Where a thread stands inside on_error or on_success. */
  datatype Pc =
    | Idle
    | ErrClock(now: Stamp)                                // clock read, window not loaded yet
    | ErrStart(now: Stamp, window: nat)                   // entering on_error_at
    | ErrLoaded(now: Stamp, window: nat, last: nat)       // last_log_ms loaded
    | ErrWon                                              // compare_exchange succeeded
    | ErrMarked                                           // in_error stored
    | ErrLost                                             // about to count itself as suppressed
    | SucSeen                                             // fast-path load saw true
    | SucWon                                              // swap of in_error returned true

  datatype Action =
    | SetWindow(secs: nat)
    | BeginError(tid: nat, now: Stamp)
    | BeginSuccess(tid: nat)
    | Step(tid: nat)

  /** What has happened, in order. At most one event per step. */
  datatype Event =
    | Began                       // an on_error call
    | UsedWindow(window: nat)     // the window an on_error call works with
    | Bypassed                    // window 0: in_error stored, Some(0) returned
    | Admitted(stamp: Stamp)      // successful compare_exchange
    | Marked                      // in_error stored after a successful compare_exchange
    | Logged(count: nat)          // on_error returned Some(count)
    | Swallowed                   // on_error counted itself and returned None
    | Recovered                   // swap of in_error returned true
    | Reported(count: nat)        // on_success returned Some(count)

  datatype State = State(shared: Shared, window: nat, threads: seq<Pc>, trace: seq<Event>)

  function Initial(secs: nat, n: nat): State {
    State(FRESH, WindowOf(secs), seq(n, _ => Idle), [])
  }

  /** What one action does to the atomics and to the thread that takes it. */
  datatype Outcome = Outcome(shared: Shared, pc: Pc, event: Option<Event>)

  /** One atomic step of a thread at pc. */
  function StepOutcome(shared: Shared, window: nat, pc: Pc): Outcome {
    match pc
    case Idle => Outcome(shared, Idle, None)
    case ErrClock(now) => Outcome(shared, ErrStart(now, window), Some(UsedWindow(window)))
    case ErrStart(now, w) =>
      if w == 0 then Outcome(shared.(inError := true), Idle, Some(Bypassed))
      else Outcome(shared, ErrLoaded(now, w, shared.lastLog), None)
    case ErrLoaded(now, w, last) =>
      if Due(last, now, w) && shared.lastLog == last then
        Outcome(shared.(lastLog := now), ErrWon, Some(Admitted(now)))
      else
        Outcome(shared, ErrLost, None)
    case ErrWon => Outcome(shared.(inError := true), ErrMarked, Some(Marked))
    case ErrMarked => Outcome(shared.(suppressed := 0), Idle, Some(Logged(shared.suppressed)))
    case ErrLost => Outcome(shared.(suppressed := shared.suppressed + 1), Idle, Some(Swallowed))
    case SucSeen =>
      if shared.inError then Outcome(shared.(inError := false), SucWon, Some(Recovered))
      else Outcome(shared, Idle, None)
    case SucWon => Outcome(shared.(suppressed := 0), Idle, Some(Reported(shared.suppressed)))
  }

  /** An action that its thread cannot take leaves everything alone. */
  function ActionOutcome(shared: Shared, window: nat, pc: Pc, a: Action): Outcome {
    match a
    case SetWindow(_) => Outcome(shared, pc, None)
    case BeginError(_, now) =>
      if pc.Idle? then Outcome(shared, ErrClock(now), Some(Began)) else Outcome(shared, pc, None)
    case BeginSuccess(_) =>
      if pc.Idle? && shared.inError then Outcome(shared, SucSeen, None) else Outcome(shared, pc, None)
    case Step(_) => StepOutcome(shared, window, pc)
  }

  function Extend(trace: seq<Event>, e: Option<Event>): seq<Event> {
    if e.None? then trace else trace + [e.value]
  }

  predicate Concerns(s: State, a: Action) { !a.SetWindow? && a.tid < |s.threads| }

  function OutcomeOf(s: State, a: Action): Outcome
    requires Concerns(s, a)
  {
    ActionOutcome(s.shared, s.window, s.threads[a.tid], a)
  }

  function Next(s: State, a: Action): State {
    if a.SetWindow? then s.(window := WindowOf(a.secs))
    else if a.tid < |s.threads| then
      var o := OutcomeOf(s, a);
      State(o.shared, s.window, s.threads[a.tid := o.pc], Extend(s.trace, o.event))
    else s
  }

  /** The state after a schedule of actions: every interleaving is some schedule. */
  function Exec(s: State, schedule: seq<Action>): State {
    if schedule == [] then s
    else Next(Exec(s, schedule[..|schedule| - 1]), schedule[|schedule| - 1])
  }

  // ---------------------------------------------------------------- measures

  predicate IsStore(e: Event) { e.Marked? || e.Bypassed? }

  predicate IsAdmission(e: Event) { e.Admitted? || e.Bypassed? }

  predicate IsLogged(e: Event) { e.Logged? || e.Bypassed? }

  predicate IsBegan(e: Event) { e.Began? }

  predicate IsSwallowed(e: Event) { e.Swallowed? }

  predicate IsRecovered(e: Event) { e.Recovered? }

  predicate IsReported(e: Event) { e.Reported? }

  predicate IsErrWon(pc: Pc) { pc.ErrWon? }

  predicate IsSucWon(pc: Pc) { pc.SucWon? }

  predicate InError(pc: Pc) {
    pc.ErrClock? || pc.ErrStart? || pc.ErrLoaded? || pc.ErrWon? || pc.ErrMarked? || pc.ErrLost?
  }

  predicate WonOrMarked(pc: Pc) { pc.ErrWon? || pc.ErrMarked? }

  /** Sum of the suppressed counts handed to callers. */
  function HandedOut(trace: seq<Event>): nat {
    if trace == [] then 0
    else
      var e := trace[|trace| - 1];
      HandedOut(trace[..|trace| - 1]) + (if e.Logged? || e.Reported? then e.count else 0)
  }

  /** The clock readings of the successful compare_exchanges, in order. */
  function Stamps(trace: seq<Event>): seq<nat> {
    if trace == [] then []
    else
      var e := trace[|trace| - 1];
      Stamps(trace[..|trace| - 1]) + (if e.Admitted? then [e.stamp] else [])
  }

  predicate WindowsAtLeast(trace: seq<Event>, w: nat) {
    forall i :: 0 <= i < |trace| && trace[i].UsedWindow? ==> trace[i].window >= w
  }

  predicate StoreBetween(trace: seq<Event>, i: nat, j: nat) {
    exists k :: i < k < j && k < |trace| && IsStore(trace[k])
  }

  predicate Holds(e: Option<Event>, p: Event -> bool) { e.Some? && p(e.value) }

  lemma EventsAfter(trace: seq<Event>, e: Option<Event>, p: Event -> bool)
    ensures Count(Extend(trace, e), p) == Count(trace, p) + Bit(Holds(e, p))
  {
    if e.Some? {
      CountSnoc(trace, e.value, p);
    }
  }

  // ---------------------------------------------- no swallowed error is lost

  predicate Conserved(s: State) {
    Count(s.trace, IsSwallowed) == HandedOut(s.trace) + s.shared.suppressed
  }

  lemma ConservedStep(s: State, a: Action)
    requires Conserved(s)
    ensures Conserved(Next(s, a))
  {
    if Concerns(s, a) {
      var o := OutcomeOf(s, a);
      EventsAfter(s.trace, o.event, IsSwallowed);
      HandedOutAfter(s.trace, o.event);
      OutcomeConserves(s.shared, s.window, s.threads[a.tid], a);
      hide ActionOutcome, HandedOut, Extend, IsSwallowed;
    }
  }

  function HandedBy(e: Option<Event>): nat {
    if e.Some? && (e.value.Logged? || e.value.Reported?) then e.value.count else 0
  }

  lemma HandedOutAfter(trace: seq<Event>, e: Option<Event>)
    ensures HandedOut(Extend(trace, e)) == HandedOut(trace) + HandedBy(e)
  {
    if e.Some? {
      assert (trace + [e.value])[..|trace|] == trace;
    }
  }

  /** One step moves a count from the counter to its caller, or adds one swallowed error to it. */
  lemma OutcomeConserves(shared: Shared, window: nat, pc: Pc, a: Action)
    ensures var o := ActionOutcome(shared, window, pc, a);
      shared.suppressed + Bit(Holds(o.event, IsSwallowed)) == o.shared.suppressed + HandedBy(o.event)
  {
  }

  /** In every interleaving and under any window changes, the errors swallowed so far
      are exactly those handed out as counts plus those still in the counter. */
  lemma {:induction false} SwallowedErrorsAreConserved(secs: nat, n: nat, schedule: seq<Action>)
    ensures var s := Exec(Initial(secs, n), schedule);
      Count(s.trace, IsSwallowed) == HandedOut(s.trace) + s.shared.suppressed
  {
    if schedule != [] {
      var front := schedule[..|schedule| - 1];
      SwallowedErrorsAreConserved(secs, n, front);
      ConservedStep(Exec(Initial(secs, n), front), schedule[|schedule| - 1]);
    }
  }

  // --------------------------------------------------- calls and recoveries

  /** Every on_error call is logged, swallowed or still running. */
  ghost predicate CallsAccounted(s: State) {
    Count(s.trace, IsBegan)
    == Count(s.trace, IsLogged) + Count(s.trace, IsSwallowed)
       + Count(s.threads, InError)
  }

  /** Every admitted error has stored in_error or is about to, and is logged or about to be. */
  ghost predicate AdmissionsAccounted(s: State) {
    && Count(s.trace, IsAdmission)
       == Count(s.trace, IsStore) + Count(s.threads, IsErrWon)
    && Count(s.trace, IsAdmission)
       == Count(s.trace, IsLogged) + Count(s.threads, WonOrMarked)
  }

  /** Every recovery is reported or about to be, and used up one store of in_error. */
  ghost predicate RecoveriesAccounted(s: State) { RecoveriesReported(s) && RecoveriesStored(s) }

  ghost predicate RecoveriesReported(s: State) {
    Count(s.trace, IsRecovered) == Count(s.trace, IsReported) + Count(s.threads, IsSucWon)
  }

  ghost predicate RecoveriesStored(s: State) {
    Count(s.trace, IsRecovered) + Bit(s.shared.inError) <= Count(s.trace, IsStore)
  }

  lemma CallsLocal(sh: Shared, window: nat, pc: Pc, a: Action)
    ensures var o := ActionOutcome(sh, window, pc, a);
      Bit(Holds(o.event, IsBegan)) + Bit(InError(pc))
      == Bit(Holds(o.event, IsLogged)) + Bit(Holds(o.event, IsSwallowed))
         + Bit(InError(o.pc))
  {
  }

  lemma CallsAccountedStep(s: State, a: Action)
    requires CallsAccounted(s)
    ensures CallsAccounted(Next(s, a))
  {
    if Concerns(s, a) {
      CallsLocal(s.shared, s.window, s.threads[a.tid], a);
      var o := OutcomeOf(s, a);
      EventsAfter(s.trace, o.event, IsBegan);
      EventsAfter(s.trace, o.event, IsLogged);
      EventsAfter(s.trace, o.event, IsSwallowed);
      CountUpdate(s.threads, a.tid, o.pc, InError);
    }
  }

  lemma AdmissionsLocal(sh: Shared, window: nat, pc: Pc, a: Action)
    ensures var o := ActionOutcome(sh, window, pc, a);
      && Bit(Holds(o.event, IsAdmission)) + Bit(IsErrWon(pc)) == Bit(Holds(o.event, IsStore)) + Bit(IsErrWon(o.pc))
      && Bit(Holds(o.event, IsAdmission)) + Bit(WonOrMarked(pc)) == Bit(Holds(o.event, IsLogged)) + Bit(WonOrMarked(o.pc))
  {
  }

  lemma AdmissionsAccountedStep(s: State, a: Action)
    requires AdmissionsAccounted(s)
    ensures AdmissionsAccounted(Next(s, a))
  {
    hide ActionOutcome, Count, Extend, Holds, IsErrWon, WonOrMarked;
    if Concerns(s, a) {
      AdmissionsLocal(s.shared, s.window, s.threads[a.tid], a);
      var o := OutcomeOf(s, a);
      EventsAfter(s.trace, o.event, IsAdmission);
      EventsAfter(s.trace, o.event, IsLogged);
      EventsAfter(s.trace, o.event, IsStore);
      ThreadsAfter(s.threads, a.tid, o.pc, IsErrWon);
      ThreadsAfter(s.threads, a.tid, o.pc, WonOrMarked);
    }
  }

  lemma ThreadsAfter(threads: seq<Pc>, tid: nat, pc: Pc, p: Pc -> bool)
    requires tid < |threads|
    ensures Count(threads[tid := pc], p) + Bit(p(threads[tid])) == Count(threads, p) + Bit(p(pc))
  {
    CountUpdate(threads, tid, pc, p);
  }

  lemma RecoveriesLocal(sh: Shared, window: nat, pc: Pc, a: Action)
    ensures var o := ActionOutcome(sh, window, pc, a);
      && Bit(Holds(o.event, IsRecovered)) + Bit(IsSucWon(pc)) == Bit(Holds(o.event, IsReported)) + Bit(IsSucWon(o.pc))
      && Bit(Holds(o.event, IsRecovered)) + Bit(o.shared.inError) <= Bit(Holds(o.event, IsStore)) + Bit(sh.inError)
  {
  }

  lemma RecoveriesReportedStep(s: State, a: Action)
    requires RecoveriesReported(s)
    ensures RecoveriesReported(Next(s, a))
  {
    hide ActionOutcome, Count, Extend, Holds, IsSucWon;
    if Concerns(s, a) {
      RecoveriesLocal(s.shared, s.window, s.threads[a.tid], a);
      var o := OutcomeOf(s, a);
      EventsAfter(s.trace, o.event, IsRecovered);
      EventsAfter(s.trace, o.event, IsReported);
      ThreadsAfter(s.threads, a.tid, o.pc, IsSucWon);
    }
  }

  lemma RecoveriesStoredStep(s: State, a: Action)
    requires RecoveriesStored(s)
    ensures RecoveriesStored(Next(s, a))
  {
    hide ActionOutcome, Count, Extend, Holds;
    if Concerns(s, a) {
      RecoveriesLocal(s.shared, s.window, s.threads[a.tid], a);
      var o := OutcomeOf(s, a);
      EventsAfter(s.trace, o.event, IsRecovered);
      EventsAfter(s.trace, o.event, IsStore);
    }
  }

  lemma {:induction false} AccountedAlways(secs: nat, n: nat, schedule: seq<Action>)
    ensures var s := Exec(Initial(secs, n), schedule);
      CallsAccounted(s) && AdmissionsAccounted(s) && RecoveriesAccounted(s) && |s.threads| == n
  {
    if schedule == [] {
      var s := Initial(secs, n);
      CountNone(s.threads, InError);
      CountNone(s.threads, IsErrWon);
      CountNone(s.threads, WonOrMarked);
      CountNone(s.threads, IsSucWon);
    } else {
      var front, last := schedule[..|schedule| - 1], schedule[|schedule| - 1];
      hide CallsAccounted, AdmissionsAccounted, RecoveriesAccounted, ActionOutcome;
      AccountedAlways(secs, n, front);
      var s := Exec(Initial(secs, n), front);
      CallsAccountedStep(s, last);
      AdmissionsAccountedStep(s, last);
      RecoveriesReportedStep(s, last);
      RecoveriesStoredStep(s, last);
    }
  }

  /** Recoveries reported never exceed the errors admitted for logging. */
  lemma RecoveriesNeverExceedAdmissions(secs: nat, n: nat, schedule: seq<Action>)
    ensures var trace := Exec(Initial(secs, n), schedule).trace;
      Count(trace, IsReported) <= Count(trace, IsRecovered)
      <= Count(trace, IsStore) <= Count(trace, IsAdmission)
  {
    AccountedAlways(secs, n, schedule);
  }

  /** When no on_error call is running, every call ever made was logged or swallowed, and the
      logged ones are exactly the admitted ones. */
  lemma EveryErrorLoggedOrSwallowed(secs: nat, n: nat, schedule: seq<Action>)
    requires forall pc :: pc in Exec(Initial(secs, n), schedule).threads ==> !InError(pc)
    ensures var trace := Exec(Initial(secs, n), schedule).trace;
      && Count(trace, IsBegan)
         == Count(trace, IsLogged) + Count(trace, IsSwallowed)
      && Count(trace, IsLogged) == Count(trace, IsAdmission)
  {
    AccountedAlways(secs, n, schedule);
    var s := Exec(Initial(secs, n), schedule);
    CountNone(s.threads, InError);
    CountNone(s.threads, WonOrMarked);
  }

  /** Between any two recoveries, and after the last one when in_error is set, in_error was
      stored true. */
  ghost predicate Alternating(s: State) {
    && (forall i, j :: 0 <= i < j < |s.trace| && s.trace[i].Recovered? && s.trace[j].Recovered?
          ==> StoreBetween(s.trace, i, j))
    && (s.shared.inError ==>
          forall i :: 0 <= i < |s.trace| && s.trace[i].Recovered? ==> StoreBetween(s.trace, i, |s.trace|))
  }

  lemma AlternatingStep(s: State, a: Action)
    requires Alternating(s)
    ensures Alternating(Next(s, a))
  {
    var t := Next(s, a);
    var n := |s.trace|;
    forall i, j | 0 <= i < j < |t.trace| && t.trace[i].Recovered? && t.trace[j].Recovered?
      ensures StoreBetween(t.trace, i, j)
    {
      assert s.trace[i] == t.trace[i];
      assert StoreBetween(s.trace, i, j);
      var k :| i < k < j && k < n && IsStore(s.trace[k]);
      assert IsStore(t.trace[k]);
    }
    if t.shared.inError {
      forall i | 0 <= i < |t.trace| && t.trace[i].Recovered?
        ensures StoreBetween(t.trace, i, |t.trace|)
      {
        if s.shared.inError {
          assert StoreBetween(s.trace, i, n);
          var k :| i < k < n && IsStore(s.trace[k]);
          assert IsStore(t.trace[k]);
        } else {
          assert IsStore(t.trace[n]);
        }
      }
    }
  }

  /** Two recoveries always have a store of in_error between them. */
  lemma {:induction false} RecoveriesAlternateWithStores(secs: nat, n: nat, schedule: seq<Action>)
    ensures Alternating(Exec(Initial(secs, n), schedule))
  {
    if schedule != [] {
      var front := schedule[..|schedule| - 1];
      RecoveriesAlternateWithStores(secs, n, front);
      AlternatingStep(Exec(Initial(secs, n), front), schedule[|schedule| - 1]);
    }
  }

  // ------------------------------------------------------- at most one a window

  /** Stamps rise by at least w, starting from at least 1. */
  predicate Spaced(stamps: seq<nat>, w: nat) {
    && (forall i :: 0 <= i < |stamps| ==> stamps[i] >= 1)
    && (forall i :: 0 < i < |stamps| ==> stamps[i] >= stamps[i - 1] + w)
  }

  predicate WindowHeld(pc: Pc, w: nat) {
    (pc.ErrStart? || pc.ErrLoaded?) ==> pc.window >= w
  }

  predicate AllWindowsHeld(threads: seq<Pc>, w: nat) {
    forall i :: 0 <= i < |threads| ==> WindowHeld(threads[i], w)
  }

  /** The newest stamp; 0 stands for none. */
  function Latest(stamps: seq<nat>): nat { if stamps == [] then 0 else stamps[|stamps| - 1] }

  /** lastLog is the latest stamp, stamps are w apart and calls under way use windows of w. */
  ghost predicate Paced(s: State, w: nat) {
    && Spaced(Stamps(s.trace), w)
    && Latest(Stamps(s.trace)) == s.shared.lastLog
    && AllWindowsHeld(s.threads, w)
  }

  lemma StampsAfter(trace: seq<Event>, e: Option<Event>)
    ensures Stamps(Extend(trace, e))
         == Stamps(trace) + if e.Some? && e.value.Admitted? then [e.value.stamp] else []
  {
    if e.Some? {
      assert Extend(trace, e)[..|trace|] == trace;
    } else {
      assert Stamps(trace) + [] == Stamps(trace);
    }
  }

  lemma PacedLocal(sh: Shared, window: nat, pc: Pc, a: Action, w: nat)
    requires w > 0 && WindowHeld(pc, w)
    requires var o := ActionOutcome(sh, window, pc, a); o.event.Some? && o.event.value.UsedWindow? ==> o.event.value.window >= w
    ensures var o := ActionOutcome(sh, window, pc, a);
      && WindowHeld(o.pc, w)
      && (if o.event.Some? && o.event.value.Admitted? then
            o.shared.lastLog == o.event.value.stamp && (sh.lastLog == 0 || o.shared.lastLog >= sh.lastLog + w)
          else o.shared.lastLog == sh.lastLog)
  {
  }

  lemma SpacedSnoc(stamps: seq<nat>, t: Stamp, w: nat)
    requires Spaced(stamps, w) && (Latest(stamps) == 0 || t >= Latest(stamps) + w)
    ensures Spaced(stamps + [t], w) && Latest(stamps + [t]) == t
  {
  }

  lemma AllWindowsStay(threads: seq<Pc>, tid: nat, pc: Pc, w: nat)
    requires tid < |threads| && AllWindowsHeld(threads, w) && WindowHeld(pc, w)
    ensures AllWindowsHeld(threads[tid := pc], w)
  {
  }

  lemma PacedStep(s: State, a: Action, w: nat)
    requires w > 0 && Paced(s, w) && WindowsAtLeast(Next(s, a).trace, w)
    ensures Paced(Next(s, a), w)
  {
    if Concerns(s, a) {
      var o := OutcomeOf(s, a);
      var trace := Extend(s.trace, o.event);
      assert o.event.Some? ==> trace[|s.trace|] == o.event.value;
      PacedLocal(s.shared, s.window, s.threads[a.tid], a, w);
      StampsAfter(s.trace, o.event);
      AllWindowsStay(s.threads, a.tid, o.pc, w);
      hide ActionOutcome, Stamps, WindowsAtLeast, AllWindowsHeld, Spaced, Latest;
      if o.event.Some? && o.event.value.Admitted? {
        SpacedSnoc(Stamps(s.trace), o.event.value.stamp, w);
      } else {
        assert Stamps(s.trace) + [] == Stamps(s.trace);
      }
    }
  }

  /** If every on_error call works with a window of at least w, successive successful
      compare_exchange stamps rise by at least w: in any interleaving, whatever the clocks say. */
  lemma {:induction false} StampsRiseByWindow(secs: nat, n: nat, schedule: seq<Action>, w: nat)
    requires w > 0 && WindowsAtLeast(Exec(Initial(secs, n), schedule).trace, w)
    ensures Paced(Exec(Initial(secs, n), schedule), w)
  {
    if schedule != [] {
      var front, last := schedule[..|schedule| - 1], schedule[|schedule| - 1];
      var s := Exec(Initial(secs, n), front);
      assert forall i :: 0 <= i < |s.trace| ==> s.trace[i] == Next(s, last).trace[i];
      StampsRiseByWindow(secs, n, front, w);
      PacedStep(s, last, w);
    }
  }

  /** The premise, from the configuration: windows are never below the smallest one configured. */
  lemma {:induction false} WindowsFollowConfig(secs: nat, n: nat, schedule: seq<Action>, floor: nat)
    requires secs >= floor
    requires forall i :: 0 <= i < |schedule| && schedule[i].SetWindow? ==> schedule[i].secs >= floor
    ensures var s := Exec(Initial(secs, n), schedule);
      s.window >= WindowOf(floor) && WindowsAtLeast(s.trace, WindowOf(floor))
  {
    if schedule != [] {
      var front, last := schedule[..|schedule| - 1], schedule[|schedule| - 1];
      var s := Exec(Initial(secs, n), front);
      WindowsFollowConfig(secs, n, front, floor);
      assert Concerns(s, last) ==> var e := OutcomeOf(s, last).event;
        e.Some? && e.value.UsedWindow? ==> e.value.window == s.window;
    }
  }

  lemma {:induction false} SpacedLowerBound(stamps: seq<nat>, w: nat, k: nat)
    requires Spaced(stamps, w) && k < |stamps|
    ensures stamps[k] >= 1 + k * w
  {
    if k > 0 {
      SpacedLowerBound(stamps, w, k - 1);
    }
  }

  /** At most q + 1 stamps w apart fit into 1..until, when q + 1 windows overshoot it. */
  lemma {:induction false} SpacedCount(stamps: seq<nat>, w: nat, until: nat, q: nat)
    requires Spaced(stamps, w) && until < 1 + (q + 1) * w
    ensures Count(stamps, (t: nat) => t <= until) <= q + 1
  {
    if stamps != [] {
      var k := |stamps| - 1;
      SpacedCount(stamps[..k], w, until, q);
      if stamps[k] <= until {
        SpacedLowerBound(stamps, w, k);
        StaysBelow(k, w, q);
      }
    }
  }

  lemma StaysBelow(k: nat, w: nat, q: nat)
    requires k * w < (q + 1) * w
    ensures k <= q
  {
    if k > q {
      MulMonotone(q + 1, k, w);
    }
  }

  lemma MulMonotone(a: nat, b: nat, w: nat)
    requires a <= b
    ensures a * w <= b * w
  {
  }

  /** The log gets at most one error a window: at most (until - 1) / w + 1 errors are let
      through with clock readings in 1..until. */
  lemma AtMostOneErrorPerWindow(secs: nat, n: nat, schedule: seq<Action>, w: nat, until: nat)
    requires w > 0 && until >= 1 && WindowsAtLeast(Exec(Initial(secs, n), schedule).trace, w)
    ensures Count(Stamps(Exec(Initial(secs, n), schedule).trace), (t: nat) => t <= until) <= (until - 1) / w + 1
  {
    StampsRiseByWindow(secs, n, schedule, w);
    SpacedCount(Stamps(Exec(Initial(secs, n), schedule).trace), w, until, (until - 1) / w);
  }

  /** The premises and the bound in configured seconds. */
  lemma AtMostOneErrorPerConfiguredWindow(secs: nat, n: nat, schedule: seq<Action>, floor: nat, until: nat)
    requires 0 < floor <= secs && floor * 1000 <= U64_MAX && until >= 1
    requires forall i :: 0 <= i < |schedule| && schedule[i].SetWindow? ==> schedule[i].secs >= floor
    ensures Count(Stamps(Exec(Initial(secs, n), schedule).trace), (t: nat) => t <= until) <= (until - 1) / (floor * 1000) + 1
  {
    WindowsFollowConfig(secs, n, schedule, floor);
    AtMostOneErrorPerWindow(secs, n, schedule, floor * 1000, until);
  }

  // ------------------------------------------------- nothing is swallowed without reason

  /** The state before the i-th action. */
  function Before(secs: nat, n: nat, schedule: seq<Action>, i: nat): State
    requires i <= |schedule|
  {
    Exec(Initial(secs, n), schedule[..i])
  }

  lemma BeforeNext(secs: nat, n: nat, schedule: seq<Action>, i: nat)
    requires i < |schedule|
    ensures Before(secs, n, schedule, i + 1) == Next(Before(secs, n, schedule, i), schedule[i])
    ensures |Before(secs, n, schedule, i).threads| == n
  {
    assert schedule[..i + 1][..i] == schedule[..i];
    ThreadsStay(secs, n, schedule[..i]);
  }

  lemma {:induction false} ThreadsStay(secs: nat, n: nat, schedule: seq<Action>)
    ensures |Exec(Initial(secs, n), schedule).threads| == n
  {
    if schedule != [] {
      ThreadsStay(secs, n, schedule[..|schedule| - 1]);
    }
  }

  /** From after action i until before action j the thread stands at pc; action i took it there. */
  ghost predicate StandsSince(secs: nat, n: nat, schedule: seq<Action>, tid: nat, pc: Pc, i: nat, j: nat) {
    && i < j <= |schedule| && tid < n
    && (forall k :: i < k <= j ==> |Before(secs, n, schedule, k).threads| == n && Before(secs, n, schedule, k).threads[tid] == pc)
    && |Before(secs, n, schedule, i).threads| == n && Before(secs, n, schedule, i).threads[tid] != pc
  }

  lemma {:induction false} TakenThere(secs: nat, n: nat, schedule: seq<Action>, tid: nat, j: nat) returns (i: nat)
    requires tid < n && j <= |schedule| && |Before(secs, n, schedule, j).threads| == n
    requires !Before(secs, n, schedule, j).threads[tid].Idle?
    ensures StandsSince(secs, n, schedule, tid, Before(secs, n, schedule, j).threads[tid], i, j)
    decreases j
  {
    hide Before, Next;
    if j == 0 {
      StartsIdle(secs, n, schedule, tid);
    } else {
      BeforeNext(secs, n, schedule, j - 1);
      var pc := Before(secs, n, schedule, j).threads[tid];
      if Before(secs, n, schedule, j - 1).threads[tid] == pc {
        i := TakenThere(secs, n, schedule, tid, j - 1);
      } else {
        i := j - 1;
      }
    }
  }

  lemma StartsIdle(secs: nat, n: nat, schedule: seq<Action>, tid: nat)
    requires tid < n
    ensures Before(secs, n, schedule, 0).threads[tid].Idle?
  {
  }

  /** Only its own actions move a thread. */
  lemma MovedBySelf(s: State, a: Action, tid: nat)
    requires tid < |s.threads| && Next(s, a).threads[tid] != s.threads[tid]
    ensures Concerns(s, a) && a.tid == tid
    ensures var p := s.threads[tid];
      Next(s, a).threads[tid].ErrLost? ==>
        p.ErrLoaded? && a == Step(tid) && (s.shared.lastLog != p.last || (p.last > 0 && p.now < p.last + p.window))
    ensures var q := Next(s, a).threads[tid];
      q.ErrLoaded? ==>
        a == Step(tid) && s.threads[tid] == ErrStart(q.now, q.window) && q.window > 0
        && q.last == s.shared.lastLog == Next(s, a).shared.lastLog
    ensures var q := Next(s, a).threads[tid];
      q.ErrStart? ==> a == Step(tid) && s.threads[tid] == ErrClock(q.now) && q.window == s.window
    ensures Next(s, a).threads[tid].ErrClock? ==> a == BeginError(tid, Next(s, a).threads[tid].now)
  {
  }

  /** The last-log stamp is changed by a winning compare_exchange only. */
  lemma StampChanges(s: State, a: Action)
    requires Next(s, a).shared.lastLog != s.shared.lastLog
    ensures Concerns(s, a) && a.Step? && s.threads[a.tid].ErrLoaded? && Next(s, a).threads[a.tid].ErrWon?
    ensures Next(s, a).trace == s.trace + [Admitted(s.threads[a.tid].now)]
  {
  }

  lemma {:induction false} ChangedBetween(secs: nat, n: nat, schedule: seq<Action>, i: nat, j: nat) returns (m: nat)
    requires i <= j <= |schedule| && Before(secs, n, schedule, i).shared.lastLog != Before(secs, n, schedule, j).shared.lastLog
    ensures i <= m < j && Before(secs, n, schedule, m + 1).shared.lastLog != Before(secs, n, schedule, m).shared.lastLog
    decreases j
  {
    hide Before;
    if Before(secs, n, schedule, j - 1).shared.lastLog != Before(secs, n, schedule, j).shared.lastLog {
      m := j - 1;
    } else {
      m := ChangedBetween(secs, n, schedule, i, j - 1);
    }
  }

  /** Another thread's error was admitted by action m. */
  ghost predicate AdmitsOther(secs: nat, n: nat, schedule: seq<Action>, tid: nat, m: nat) {
    && m < |schedule| && schedule[m].Step? && schedule[m].tid != tid
    && var s := Before(secs, n, schedule, m);
       schedule[m].tid < |s.threads| && s.threads[schedule[m].tid].ErrLoaded?
       && Before(secs, n, schedule, m + 1).trace == s.trace + [Admitted(s.threads[schedule[m].tid].now)]
  }

  /** An on_error call of the thread: begun with a clock reading, then its window loaded, then the last stamp loaded,
      then the compare_exchange. */
  datatype Call = Call(begin: nat, clock: nat, load: nat, compare: nat)

  ghost predicate IsCall(secs: nat, n: nat, schedule: seq<Action>, tid: nat, c: Call) {
    && c.begin < c.clock < c.load < c.compare < |schedule|
    && schedule[c.begin].BeginError? && schedule[c.begin].tid == tid
    && schedule[c.clock] == schedule[c.load] == schedule[c.compare] == Step(tid)
  }

  /** How a thread about to count itself as suppressed got there. */
  ghost predicate LostCall(secs: nat, n: nat, schedule: seq<Action>, tid: nat, c: Call)
    requires IsCall(secs, n, schedule, tid, c)
  {
    var p := ErrLoaded(schedule[c.begin].now, Before(secs, n, schedule, c.clock).window, Before(secs, n, schedule, c.load).shared.lastLog);
    && p.window > 0
    && (forall k :: c.load < k <= c.compare ==> Standing(secs, n, schedule, tid, k) == p)
    && Before(secs, n, schedule, c.load + 1).shared.lastLog == p.last
    && (Before(secs, n, schedule, c.compare).shared.lastLog != p.last || (p.last > 0 && p.now < p.last + p.window))
  }

  function Standing(secs: nat, n: nat, schedule: seq<Action>, tid: nat, k: nat): Pc
    requires k <= |schedule|
  {
    var s := Before(secs, n, schedule, k);
    if tid < |s.threads| then s.threads[tid] else Idle
  }

  lemma MoveAt(secs: nat, n: nat, schedule: seq<Action>, tid: nat, i: nat, j: nat)
    requires j <= |schedule| && StandsSince(secs, n, schedule, tid, Standing(secs, n, schedule, tid, j), i, j)
    ensures var s, p := Before(secs, n, schedule, i), Standing(secs, n, schedule, tid, j);
      && Before(secs, n, schedule, i + 1) == Next(s, schedule[i]) && tid < |s.threads|
      && Next(s, schedule[i]).threads[tid] == p != s.threads[tid] == Standing(secs, n, schedule, tid, i)
  {
    hide Before, Next;
    BeforeNext(secs, n, schedule, i);
  }

  lemma LostCallOf(secs: nat, n: nat, schedule: seq<Action>, tid: nat, e: nat) returns (c: Call)
    requires tid < n && e <= |schedule| && Standing(secs, n, schedule, tid, e).ErrLost?
    ensures IsCall(secs, n, schedule, tid, c) && c.compare < e && LostCall(secs, n, schedule, tid, c)
  {
    hide Before, Next;
    ThreadsAt(secs, n, schedule, e);
    var compare := TakenThere(secs, n, schedule, tid, e);
    MoveAt(secs, n, schedule, tid, compare, e);
    MovedBySelf(Before(secs, n, schedule, compare), schedule[compare], tid);
    ThreadsAt(secs, n, schedule, compare);
    var load := TakenThere(secs, n, schedule, tid, compare);
    MoveAt(secs, n, schedule, tid, load, compare);
    MovedBySelf(Before(secs, n, schedule, load), schedule[load], tid);
    ThreadsAt(secs, n, schedule, load);
    var clock := TakenThere(secs, n, schedule, tid, load);
    MoveAt(secs, n, schedule, tid, clock, load);
    MovedBySelf(Before(secs, n, schedule, clock), schedule[clock], tid);
    ThreadsAt(secs, n, schedule, clock);
    var begin := TakenThere(secs, n, schedule, tid, clock);
    MoveAt(secs, n, schedule, tid, begin, clock);
    MovedBySelf(Before(secs, n, schedule, begin), schedule[begin], tid);
    c := Call(begin, clock, load, compare);
  }

  lemma ThreadsAt(secs: nat, n: nat, schedule: seq<Action>, k: nat)
    requires k <= |schedule|
    ensures |Before(secs, n, schedule, k).threads| == n
  {
    ThreadsStay(secs, n, schedule[..k]);
  }

  /** If the stamp changed between the load and the compare_exchange, another error was admitted in between. */
  lemma OtherAdmitted(secs: nat, n: nat, schedule: seq<Action>, tid: nat, c: Call) returns (m: nat)
    requires tid < n && IsCall(secs, n, schedule, tid, c) && LostCall(secs, n, schedule, tid, c)
    requires Before(secs, n, schedule, c.compare).shared.lastLog != Before(secs, n, schedule, c.load + 1).shared.lastLog
    ensures c.load < m < c.compare && AdmitsOther(secs, n, schedule, tid, m)
  {
    hide Before, Next;
    m := ChangedBetween(secs, n, schedule, c.load + 1, c.compare);
    BeforeNext(secs, n, schedule, m);
    StampChanges(Before(secs, n, schedule, m), schedule[m]);
    assert Standing(secs, n, schedule, tid, m).ErrLoaded? && Standing(secs, n, schedule, tid, m + 1).ErrLoaded?;
    ThreadsAt(secs, n, schedule, m);
    ThreadsAt(secs, n, schedule, m + 1);
  }

  /** A swallowed error came within a window, the one configured when its call loaded it, after the stamp it had
      loaded, or another error was admitted between the load and the compare_exchange. In every interleaving. */
  lemma SwallowedWithinWindow(secs: nat, n: nat, schedule: seq<Action>, tid: nat) returns (c: Call, m: nat)
    requires schedule != [] && schedule[|schedule| - 1] == Step(tid)
    requires var e := |schedule| - 1;
      Before(secs, n, schedule, |schedule|).trace == Before(secs, n, schedule, e).trace + [Swallowed]
    ensures IsCall(secs, n, schedule, tid, c)
    ensures var now, w := schedule[c.begin].now, Before(secs, n, schedule, c.clock).window;
      var last := Before(secs, n, schedule, c.load).shared.lastLog;
      && w > 0
      && ((last > 0 && now < last + w) || (c.load < m < c.compare && AdmitsOther(secs, n, schedule, tid, m)))
  {
    var e := |schedule| - 1;
    BeforeNext(secs, n, schedule, e);
    SwallowedFromLost(Before(secs, n, schedule, e), tid);
    hide Before, Next, AdmitsOther;
    c := LostCallOf(secs, n, schedule, tid, e);
    m := c.load;
    if Before(secs, n, schedule, c.compare).shared.lastLog != Before(secs, n, schedule, c.load + 1).shared.lastLog {
      m := OtherAdmitted(secs, n, schedule, tid, c);
    }
  }

  lemma SwallowedFromLost(s: State, tid: nat)
    requires Next(s, Step(tid)).trace == s.trace + [Swallowed]
    ensures tid < |s.threads| && s.threads[tid].ErrLost?
  {
    if tid < |s.threads| {
      var o := OutcomeOf(s, Step(tid));
      assert o.event.Some? ==> (s.trace + [o.event.value])[|s.trace|] == o.event.value;
      assert (s.trace + [Swallowed])[|s.trace|] == Swallowed;
    }
  }

  // ------------------------------------------- the machine and the sequential calls

  function Solo(s: State, tid: nat, steps: nat): State {
    if steps == 0 then s else Next(Solo(s, tid, steps - 1), Step(tid))
  }

  /** What on_error returned, read off the event it ended with. */
  function ErrorReturn(e: Event): Option<nat> {
    match e
    case Logged(count) => Some(count)
    case Bypassed => Some(0)
    case _ => None
  }

  /** A thread that nobody interrupts does exactly what ErrorThrottle.OnErrorAt does. */
  lemma SoloErrorRefines(s: State, tid: nat, now: Stamp)
    requires tid < |s.threads| && s.threads[tid].Idle?
    ensures var t := Solo(Next(s, BeginError(tid, now)), tid, 5);
      && t.threads == s.threads
      && t.trace != []
      && ErrorOutcome(s.shared, t.shared, now, s.window, ErrorReturn(t.trace[|t.trace| - 1]))
  {
    var s1 := Next(s, BeginError(tid, now));
    var s2 := Next(s1, Step(tid));
    var s3 := Next(s2, Step(tid));
    var s4 := Next(s3, Step(tid));
    var s5 := Next(s4, Step(tid));
    var s6 := Next(s5, Step(tid));
    assert Solo(s1, tid, 1) == s2;
    assert Solo(s1, tid, 2) == s3;
    assert Solo(s1, tid, 3) == s4;
    assert Solo(s1, tid, 4) == s5;
    assert Solo(s1, tid, 5) == s6;
    assert s6.threads == s.threads;
  }

  /** Likewise for ErrorThrottle.OnSuccess: it reports exactly when the trace gains events. */
  lemma SoloSuccessRefines(s: State, tid: nat)
    requires tid < |s.threads| && s.threads[tid].Idle?
    ensures var t := Solo(Next(s, BeginSuccess(tid)), tid, 2);
      && t.threads == s.threads
      && (t.trace == s.trace || t.trace == s.trace + [Recovered, Reported(s.shared.suppressed)])
      && SuccessOutcome(s.shared, t.shared,
           if t.trace == s.trace then None else Some(s.shared.suppressed))
  {
    var s1 := Next(s, BeginSuccess(tid));
    var s2 := Next(s1, Step(tid));
    var s3 := Next(s2, Step(tid));
    assert Solo(s1, tid, 1) == s2;
    assert Solo(s1, tid, 2) == s3;
    assert s3.threads == s.threads;
  }
}
