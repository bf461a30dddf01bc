/** What docker answers decides how far a run gets: both scripts signal tinylb, restart a target and wait for its
    health in the same way, and the first bad answer ends the run. */
module RollingAnswers {
  import opened Prelude
  import opened Rolling
  import opened RollingRuns

  /** The answers about one target: whether each signal and the restart command succeed, and the health statuses
      reported until the startup timeout. */
  datatype Answers = Answers(drainSignal: bool, restart: bool, statuses: seq<string>, undrainSignal: bool)

  predicate Healthy(a: Answers) { "healthy" in a.statuses }

  /** A target found drained is not signalled again. */
  predicate Signalled<K>(r: Rules<K>, c: Config, k: K, a: Answers) { r.drained(c, k) || a.drainSignal }

  /** Every answer the target needs is a good one. */
  predicate Positive<K>(r: Rules<K>, c: Config, k: K, a: Answers) {
    Signalled(r, c, k, a) && a.restart && Healthy(a) && a.undrainSignal
  }

  /** The effects of one target's part that happen. */
  function Done<K>(r: Rules<K>, c: Config, k: K, a: Answers): (n: nat)
    ensures n <= |StepTrace(r, c, k)|
  {
    var pre := |DrainSteps(r, c, k)|;
    if !Signalled(r, c, k, a) then 1
    else if !a.restart || !Healthy(a) then pre + 1
    else if !a.undrainSignal then pre + 2
    else pre + 3
  }

  /** How many targets of the order are done before the first bad answer. */
  function Finished<K>(r: Rules<K>, c: Config, order: seq<K>, answers: K -> Answers): (f: nat)
    ensures f <= |order|
  {
    if order == [] then 0
    else
      var n := |order| - 1;
      var f := Finished(r, c, order[..n], answers);
      if f == n && Positive(r, FileAfter(r, c, order[..n]), order[n], answers(order[n])) then n + 1 else f
  }

  /** The run that these answers give. */
  function RunUnder<K>(r: Rules<K>, c: Config, order: seq<K>, answers: K -> Answers): seq<Effect<K>> {
    var f := Finished(r, c, order, answers);
    var before := FileAfter(r, c, order[..f]);
    Trace(r, c, order[..f])
    + if f == |order| then [] else StepTrace(r, before, order[f])[..Done(r, before, order[f], answers(order[f]))]
  }

  // ------------------------------------------------------------ how far a run gets

  lemma {:induction false} FinishedMeans<K>(r: Rules<K>, c: Config, order: seq<K>, answers: K -> Answers)
    ensures var f := Finished(r, c, order, answers);
      && (forall p :: 0 <= p < f ==> Positive(r, FileAfter(r, c, order[..p]), order[p], answers(order[p])))
      && (f < |order| ==> !Positive(r, FileAfter(r, c, order[..f]), order[f], answers(order[f])))
  {
    hide Positive, FileAfter;
    if order != [] {
      var front := order[..|order| - 1];
      FinishedMeans(r, c, front, answers);
      assert forall p :: 0 <= p <= |front| ==> front[..p] == order[..p];
    }
  }

  lemma FinishedIs<K>(r: Rules<K>, c: Config, order: seq<K>, answers: K -> Answers, i: nat)
    requires i <= |order|
    requires forall p :: 0 <= p < i ==> Positive(r, FileAfter(r, c, order[..p]), order[p], answers(order[p]))
    requires i < |order| ==> !Positive(r, FileAfter(r, c, order[..i]), order[i], answers(order[i]))
    ensures Finished(r, c, order, answers) == i
  {
    FinishedMeans(r, c, order, answers);
    hide Positive, FileAfter, Finished;
  }

  /** It is a prefix of the run in which nothing fails, and that whole run exactly if no answer is bad. */
  lemma RunIsPrefix<K>(r: Rules<K>, c: Config, order: seq<K>, answers: K -> Answers)
    ensures RunUnder(r, c, order, answers) <= Trace(r, c, order)
    ensures RunUnder(r, c, order, answers) == Trace(r, c, order) <==> Finished(r, c, order, answers) == |order|
  {
    var f := Finished(r, c, order, answers);
    hide Trace, FileAfter, StepTrace, Finished;
    if f == |order| {
      assert order[..f] == order;
    } else {
      var before := FileAfter(r, c, order[..f]);
      FinishedMeans(r, c, order, answers);
      DoneWhole(r, before, order[f], answers(order[f]));
      PartOfRun(r, c, order, f, Done(r, before, order[f], answers(order[f])));
      StepNonempty(r, before, order[f]);
    }
  }

  lemma DoneWhole<K>(r: Rules<K>, c: Config, k: K, a: Answers)
    ensures Done(r, c, k, a) == |StepTrace(r, c, k)| <==> Positive(r, c, k, a)
  {
  }

  /** In a target's part: what has been answered when an effect happens. */
  lemma DoneMeans<K>(r: Rules<K>, c: Config, k: K, a: Answers, i: nat)
    requires i < Done(r, c, k, a)
    ensures StepTrace(r, c, k)[i].Restart? ==> Signalled(r, c, k, a)
    ensures StepTrace(r, c, k)[i].Restart? && !(a.restart && Healthy(a)) ==> i + 1 == Done(r, c, k, a)
    ensures StepTrace(r, c, k)[i].Write? && i > 0 ==> Signalled(r, c, k, a) && a.restart && Healthy(a)
    ensures StepTrace(r, c, k)[i].Write? && r.drained(c, k) ==> i > 0
  {
  }

  /** A drain flag is found as it was at the start when the target's turn comes. */
  lemma DrainedAtTurn<K(!new)>(r: Rules<K>, c: Config, keys: seq<K>, p: nat)
    requires Started(r, c, keys) && p < |Order(r, c, keys)|
    ensures var order := Order(r, c, keys); r.drained(FileAfter(r, c, order[..p]), order[p]) == r.drained(c, order[p])
  {
    hide *;
    StartedMeans(r, c, keys);
    var order := Order(r, c, keys);
    NotBefore(order, p);
    FileAfterUntouched(r, c, order[..p], order[p]);
  }

  lemma NotBefore<K(!new)>(order: seq<K>, p: nat)
    requires Unique(order) && p < |order|
    ensures order[p] !in order[..p]
  {
  }

  // ------------------------------------------------------------------ main results

  /** The targets that have their turn: all of the order or the first of them. */
  ghost predicate Turn<K(!new)>(r: Rules<K>, c: Config, keys: seq<K>, turns: seq<K>) {
    Started(r, c, keys) && turns <= Order(r, c, keys)
  }

  lemma TurnMeans<K(!new)>(r: Rules<K>, c: Config, keys: seq<K>, turns: seq<K>, p: nat)
    requires Turn(r, c, keys, turns) && p < |turns|
    ensures turns[p] in keys && r.drained(FileAfter(r, c, turns[..p]), turns[p]) == r.drained(c, turns[p])
  {
    hide FileAfter, Order, Started;
    DrainedAtTurn(r, c, keys, p);
    var order := Order(r, c, keys);
    StartedMeans(r, c, keys);
    assert turns[p] == order[p] && turns[..p] == order[..p] && order[p] in order;
  }

  lemma TurnRun<K(!new)>(r: Rules<K>, c: Config, keys: seq<K>, turns: seq<K>, answers: K -> Answers)
    requires Turn(r, c, keys, turns)
    ensures RunUnder(r, c, turns, answers) <= FullRun(r, c, keys)
  {
    hide Trace, Order, Started, RunUnder;
    StartedMeans(r, c, keys);
    RunIsPrefix(r, c, turns, answers);
    var order := Order(r, c, keys);
    TracePrefix(r, c, order, |turns|);
    assert order[..|turns|] == turns;
  }

  /** A run gets through exactly if every answer is good: each signal that is needed succeeds, each restart, and
      each target is reported healthy in time. */
  lemma CompletesExactly<K(!new)>(r: Rules<K>, c: Config, keys: seq<K>, turns: seq<K>, answers: K -> Answers)
    requires Turn(r, c, keys, turns)
    ensures RunUnder(r, c, turns, answers) == Trace(r, c, turns)
      <==> forall k :: k in turns ==>
        (r.drained(c, k) || answers(k).drainSignal) && answers(k).restart && "healthy" in answers(k).statuses
        && answers(k).undrainSignal
  {
    hide Trace, FileAfter, Turn, RunUnder, Finished;
    RunIsPrefix(r, c, turns, answers);
    FinishedMeans(r, c, turns, answers);
    forall p | 0 <= p < |turns|
      ensures r.drained(FileAfter(r, c, turns[..p]), turns[p]) == r.drained(c, turns[p])
    {
      TurnMeans(r, c, keys, turns, p);
    }
    var f := Finished(r, c, turns, answers);
    if f == |turns| {
      forall k | k in turns
        ensures Positive(r, c, k, answers(k))
      {
        var p :| 0 <= p < |turns| && turns[p] == k;
        assert Positive(r, FileAfter(r, c, turns[..p]), turns[p], answers(turns[p]));
      }
    } else {
      assert !Positive(r, c, turns[f], answers(turns[f])) && turns[f] in turns;
    }
  }

  /** Where an effect of the run stands: in the part of a target all of whose predecessors had good answers. */
  lemma EffectAt<K>(r: Rules<K>, c: Config, order: seq<K>, answers: K -> Answers, i: nat) returns (k: nat, rest: nat)
    requires i < |RunUnder(r, c, order, answers)|
    ensures k < |order| && k <= Finished(r, c, order, answers)
    ensures var before := FileAfter(r, c, order[..k]);
      && rest < Done(r, before, order[k], answers(order[k]))
      && RunUnder(r, c, order, answers)[i] == StepTrace(r, before, order[k])[rest]
      && |RunUnder(r, c, order, answers)| > i
      && i == |Trace(r, c, order[..k])| + rest
      && (k == Finished(r, c, order, answers) ==>
            |RunUnder(r, c, order, answers)| == |Trace(r, c, order[..k])| + Done(r, before, order[k], answers(order[k])))
  {
    hide Trace, FileAfter, StepTrace, Finished, Done;
    var f := Finished(r, c, order, answers);
    FinishedMeans(r, c, order, answers);
    if i < |Trace(r, c, order[..f])| {
      k, rest := SplitCut(r, c, order[..f], i);
      assert order[..f][..k] == order[..k] && order[..f][k] == order[k];
      DoneWhole(r, FileAfter(r, c, order[..k]), order[k], answers(order[k]));
    } else {
      k, rest := f, i - |Trace(r, c, order[..f])|;
    }
  }

  /** A target that is restarted and not reported healthy, or whose restart fails, is where the run ends: it stays
      drained in the file, and the next run starts with it. */
  lemma FailureStopsRun<K(!new)>(r: Rules<K>, c: Config, keys: seq<K>, turns: seq<K>, answers: K -> Answers, i: nat)
    requires Turn(r, c, keys, turns) && i < |RunUnder(r, c, turns, answers)| && RunUnder(r, c, turns, answers)[i].Restart?
    ensures var run := RunUnder(r, c, turns, answers);
      var x, f := run[i].key, FileAt(c, run);
      !(answers(x).restart && "healthy" in answers(x).statuses) ==>
        i == |run| - 1 && r.drained(f, x) && Order(r, f, keys) != [] && Order(r, f, keys)[0] == x
  {
    hide FileAt, Trace, FileAfter, StepTrace, Started, Finished, Done, Order;
    TurnRun(r, c, keys, turns, answers);
    var run, t := RunUnder(r, c, turns, answers), FullRun(r, c, keys);
    var k, rest := EffectAt(r, c, turns, answers, i);
    var before, x := FileAfter(r, c, turns[..k]), turns[k];
    RestartKey(r, before, x, rest);
    DoneMeans(r, before, x, answers(x), rest);
    if !(answers(x).restart && Healthy(answers(x))) {
      FinishedMeans(r, c, turns, answers);
      NotPositive(r, before, x, answers(x));
      assert k == Finished(r, c, turns, answers);
      assert run == t[..i + 1] && t[i] == run[i];
      RestartedWhileDrained(r, c, keys, i);
      StoppedTargetRecoversFirst(r, c, keys, i);
    }
  }

  lemma RestartKey<K>(r: Rules<K>, c: Config, k: K, i: nat)
    requires i < |StepTrace(r, c, k)| && StepTrace(r, c, k)[i].Restart?
    ensures StepTrace(r, c, k)[i].key == k
  {
  }

  lemma NotPositive<K>(r: Rules<K>, c: Config, k: K, a: Answers)
    requires !(a.restart && Healthy(a))
    ensures !Positive(r, c, k, a)
  {
  }

  /** The first bad answer of a run is that a target is not healthy in time. */
  predicate EndsUnhealthy<K>(r: Rules<K>, c: Config, order: seq<K>, answers: K -> Answers) {
    var f := Finished(r, c, order, answers);
    f < |order| && Signalled(r, FileAfter(r, c, order[..f]), order[f], answers(order[f])) && answers(order[f]).restart
    && !Healthy(answers(order[f]))
  }

  /** Then its restart is the last thing that happens. */
  lemma UnhealthyLast<K>(r: Rules<K>, c: Config, order: seq<K>, answers: K -> Answers)
    requires EndsUnhealthy(r, c, order, answers)
    ensures var run := RunUnder(r, c, order, answers);
      run != [] && run[|run| - 1] == Restart(order[Finished(r, c, order, answers)])
  {
    var f := Finished(r, c, order, answers);
    var before := FileAfter(r, c, order[..f]);
    StepCuts(r, before, order[f]);
    hide Trace, FileAfter, StepTrace, Finished;
  }

  /** A write that undrains a target comes only after good answers: its restart succeeded, it was reported healthy,
      and all that was asked about the targets before it was answered well. */
  lemma UndrainsAfterHealth<K(!new)>(r: Rules<K>, c: Config, keys: seq<K>, turns: seq<K>, answers: K -> Answers, i: nat, x: K)
    requires Turn(r, c, keys, turns) && i < |RunUnder(r, c, turns, answers)|
    requires var run := RunUnder(r, c, turns, answers);
      r.drained(FileAt(c, run[..i]), x) && !r.drained(FileAt(c, run[..i + 1]), x)
    ensures answers(x).restart && "healthy" in answers(x).statuses && (r.drained(c, x) || answers(x).drainSignal)
    ensures exists k :: 0 <= k < |turns| && turns[k] == x && forall p :: 0 <= p < k ==>
      (r.drained(c, turns[p]) || answers(turns[p]).drainSignal) && answers(turns[p]).restart
      && "healthy" in answers(turns[p]).statuses && answers(turns[p]).undrainSignal
  {
    hide FileAt, Trace, FileAfter, StepTrace, Turn, Finished, Done, FileInStep, Lawful;
    RunIsPrefix(r, c, turns, answers);
    var run, t := RunUnder(r, c, turns, answers), Trace(r, c, turns);
    assert run[..i] == t[..i] && run[..i + 1] == t[..i + 1];
    var k, rest := EffectAt(r, c, turns, answers, i);
    var before, y := FileAfter(r, c, turns[..k]), turns[k];
    DoneMeans(r, before, y, answers(y), rest);
    FileWithin(r, c, turns, k, rest);
    FileWithin(r, c, turns, k, rest + 1);
    TurnLawful(r, c, keys, turns);
    UndrainedInStep(r, before, y, rest, x);
    TurnMeans(r, c, keys, turns, k);
    FinishedMeans(r, c, turns, answers);
    forall p | 0 <= p < k
      ensures Positive(r, c, turns[p], answers(turns[p]))
    {
      TurnMeans(r, c, keys, turns, p);
    }
  }

  lemma TurnLawful<K(!new)>(r: Rules<K>, c: Config, keys: seq<K>, turns: seq<K>)
    requires Turn(r, c, keys, turns)
    ensures Lawful(r)
  {
    hide Lawful, AllPresent, Unique, Order;
  }

  /** In a target's part only its last write undrains anything, and nothing but the target. */
  lemma UndrainedInStep<K(!new)>(r: Rules<K>, c: Config, k: K, rest: nat, x: K)
    requires Lawful(r) && rest < |StepTrace(r, c, k)|
    requires r.drained(FileInStep(r, c, k, rest), x) && !r.drained(FileInStep(r, c, k, rest + 1), x)
    ensures x == k && rest > 0 && StepTrace(r, c, k)[rest].Write?
  {
    StepCuts(r, c, k);
    if x != k {
      MarkedUntouched(r, c, k, x);
      MarkUntouched(r, Drained(r, c, k), k, false, x);
    }
  }

  // ----------------------------------------------------- what the scripts' loops need

  /** In the round of target i, all before having had good answers. */
  lemma PartDone<K>(r: Rules<K>, c: Config, order: seq<K>, answers: K -> Answers, i: nat)
    requires i < |order|
    requires forall p :: 0 <= p < i ==> Positive(r, FileAfter(r, c, order[..p]), order[p], answers(order[p]))
    ensures var before, a := FileAfter(r, c, order[..i]), answers(order[i]);
      var step := StepTrace(r, before, order[i]);
      if Positive(r, before, order[i], a) then
        && step[..Done(r, before, order[i], a)] == step
        && Trace(r, c, order[..i + 1]) == Trace(r, c, order[..i]) + step
        && FileAfter(r, c, order[..i + 1]) == FileAt(before, step)
      else
        && RunUnder(r, c, order, answers) == Trace(r, c, order[..i]) + step[..Done(r, before, order[i], a)]
        && FileAt(c, RunUnder(r, c, order, answers)) == FileAt(before, step[..Done(r, before, order[i], a)])
        && Finished(r, c, order, answers) == i
        && (EndsUnhealthy(r, c, order, answers) <==> Signalled(r, before, order[i], a) && a.restart && "healthy" !in a.statuses)
  {
    hide Trace, FileAfter, StepTrace, FileAt, Finished;
    var before, x := FileAfter(r, c, order[..i]), order[i];
    var part := Done(r, before, x, answers(x));
    DoneWhole(r, before, x, answers(x));
    PartOfRun(r, c, order, i, part);
    if Positive(r, before, x, answers(x)) {
      var step := StepTrace(r, before, x);
      assert step[..part] == step;
      assert order[..i + 1] == order[..i] + [order[i]];
      TraceSnoc(r, c, order[..i], order[i]);
    } else {
      FinishedIs(r, c, order, answers, i);
      RunIsPrefix(r, c, order, answers);
    }
  }

  lemma AllDone<K>(r: Rules<K>, c: Config, order: seq<K>, answers: K -> Answers)
    requires forall p :: 0 <= p < |order| ==> Positive(r, FileAfter(r, c, order[..p]), order[p], answers(order[p]))
    ensures Finished(r, c, order, answers) == |order| && !EndsUnhealthy(r, c, order, answers)
    ensures RunUnder(r, c, order, answers) == Trace(r, c, order) == Trace(r, c, order[..|order|])
    ensures FileAt(c, Trace(r, c, order)) == FileAfter(r, c, order[..|order|])
  {
    hide Trace, FileAfter, FileAt, Finished;
    FinishedIs(r, c, order, answers, |order|);
    RunIsPrefix(r, c, order, answers);
    TraceEnds(r, c, order);
    assert order[..|order|] == order;
  }

  // ------------------------------------------------------------- waiting for health

  /** wait_healthy: polls until a status is "healthy" or the timeout is over. */
  method WaitHealthy(statuses: seq<string>) returns (ok: bool)
    ensures ok <==> "healthy" in statuses
  {
    for i := 0 to |statuses|
      invariant "healthy" !in statuses[..i]
    {
      if statuses[i] == "healthy" {
        return true;
      }
      assert statuses[..i + 1] == statuses[..i] + [statuses[i]];
    }
    assert statuses[..|statuses|] == statuses;
    ok := false;
  }
}
