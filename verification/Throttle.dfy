/** src/throttle.rs, one thread at a time: the three fields of an error throttle
    and the two calls that update them. */
module Throttle {
  import opened Prelude

  const U64_MAX: nat := 0xFFFF_FFFF_FFFF_FFFF

  /** Clock readings are never 0: now_ms adds 1, and 0 means "never logged". */
  type Stamp = t: nat | t >= 1 witness 1

  /** The three atomics of one throttle. */
  datatype Shared = Shared(inError: bool, lastLog: nat, suppressed: nat)

  const FRESH := Shared(false, 0, 0)

  function SaturatingSub(x: nat, y: nat): nat { if x >= y then x - y else 0 }

  /** The stored window for a configured number of seconds. */
  function WindowOf(secs: nat): nat { Min(secs * 1000, U64_MAX) }

  /** An error may be logged: nothing was logged before, or a whole window has passed. */
  predicate Due(lastLog: nat, now: nat, window: nat) {
    lastLog == 0 || SaturatingSub(now, lastLog) >= window
  }

  /** What one uninterrupted on_error does to the throttle and what it returns. */
  predicate ErrorOutcome(before: Shared, after: Shared, now: nat, window: nat, r: Option<nat>) {
    if window == 0 then
      r == Some(0) && after == before.(inError := true)
    else if Due(before.lastLog, now, window) then
      r == Some(before.suppressed) && after == Shared(true, now, 0)
    else
      r == None && after == before.(suppressed := before.suppressed + 1)
  }

  /** The first error, or the first one a whole window after the last that was let through, is let through with the
      number of those swallowed since; any other is counted. With window 0 every error is let through. */
  lemma ErrorOutcomeMeans(before: Shared, after: Shared, now: nat, window: nat, r: Option<nat>)
    requires ErrorOutcome(before, after, now, window, r)
    ensures r.Some? <==> window == 0 || before.lastLog == 0 || now >= before.lastLog + window
    ensures r.Some? ==> after.inError
    ensures r.Some? && window > 0 ==> r.value == before.suppressed && after.lastLog == now && after.suppressed == 0
    ensures r.None? ==> after == Shared(before.inError, before.lastLog, before.suppressed + 1)
    ensures window == 0 ==> r == Some(0) && after.lastLog == before.lastLog && after.suppressed == before.suppressed
  {
  }

  /** What one uninterrupted on_success does to the throttle and what it returns. */
  predicate SuccessOutcome(before: Shared, after: Shared, r: Option<nat>) {
    if before.inError then
      r == Some(before.suppressed) && after == Shared(false, before.lastLog, 0)
    else
      r == None && after == before
  }

  class ErrorThrottle {
    var inError: bool
    var lastLog: nat
    var suppressed: nat

    function View(): Shared
      reads this
    {
      Shared(inError, lastLog, suppressed)
    }

    constructor ()
      ensures View() == FRESH
    {
      inError, lastLog, suppressed := false, 0, 0;
    }

    /** One compare_exchange on lastLog. */
    method CompareExchangeLast(expected: nat, replacement: nat) returns (ok: bool)
      modifies this`lastLog
      ensures ok == (old(lastLog) == expected)
      ensures lastLog == if ok then replacement else old(lastLog)
    {
      ok := lastLog == expected;
      if ok {
        lastLog := replacement;
      }
    }

    method OnErrorAt(now: Stamp, window: nat) returns (r: Option<nat>)
      modifies this
      ensures ErrorOutcome(old(View()), View(), now, window, r)
      ensures window > 0 ==> (r.Some? <==> old(lastLog) == 0 || now >= old(lastLog) + window)
      ensures window > 0 && r.Some? ==> r.value == old(suppressed) && lastLog == now && suppressed == 0 && inError
      ensures r.None? ==> lastLog == old(lastLog) && suppressed == old(suppressed) + 1 && inError == old(inError)
    {
      if window == 0 {
        inError := true;
        return Some(0);
      }
      var last := lastLog;
      if last == 0 || SaturatingSub(now, last) >= window {
        var won := CompareExchangeLast(last, now);
        if won {
          inError := true;
          r := Some(suppressed);
          suppressed := 0;
          return;
        }
      }
      suppressed := suppressed + 1;
      return None;
    }

    method OnSuccess() returns (r: Option<nat>)
      modifies this
      ensures SuccessOutcome(old(View()), View(), r)
    {
      if !inError {
        return None;
      }
      var was := inError;
      inError := false;
      if was {
        r := Some(suppressed);
        suppressed := 0;
      } else {
        r := None;
      }
    }
  }
}
