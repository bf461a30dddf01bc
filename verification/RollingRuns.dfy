/** Whole runs of the rolling update protocol of Rolling: what holds at every point where a run can stop,
    over re-runs, and at the end. */
module RollingRuns {
  import opened Prelude
  import opened Rolling

  // --------------------------------------------------------------- effects of a run

  /** The file once k is drained; a target found drained is not written again. */
  function Drained<K>(r: Rules<K>, c: Config, k: K): Config { if r.drained(c, k) then c else r.mark(c, k, true) }

  function DrainSteps<K>(r: Rules<K>, c: Config, k: K): seq<Effect<K>> {
    if r.drained(c, k) then [] else [Write(r.mark(c, k, true)), Reload]
  }

  function UndrainSteps<K>(r: Rules<K>, c: Config, k: K): seq<Effect<K>> {
    [Restart(k), Write(r.mark(Drained(r, c, k), k, false)), Reload]
  }

  /** One target. */
  function StepTrace<K>(r: Rules<K>, c: Config, k: K): seq<Effect<K>> { DrainSteps(r, c, k) + UndrainSteps(r, c, k) }

  /** The file after the targets of the order are done. */
  function FileAfter<K>(r: Rules<K>, c: Config, order: seq<K>): Config {
    if order == [] then c
    else
      var n := |order| - 1;
      var before := FileAfter(r, c, order[..n]);
      r.mark(Drained(r, before, order[n]), order[n], false)
  }

  /** A run in which nothing fails. */
  function Trace<K>(r: Rules<K>, c: Config, order: seq<K>): seq<Effect<K>> {
    if order == [] then []
    else
      var n := |order| - 1;
      Trace(r, c, order[..n]) + StepTrace(r, FileAfter(r, c, order[..n]), order[n])
  }

  /** lb.toml after some effects. */
  function FileAt<K>(c: Config, effects: seq<Effect<K>>): Config {
    if effects == [] then c
    else
      var n := |effects| - 1;
      if effects[n].Write? then effects[n].config else FileAt(c, effects[..n])
  }

  /** What tinylb has loaded. It loads the file when signalled, and on its own when its poll finds the file
      changed: polls says after how many effects that happens. */
  function LoadedAt<K>(loaded: Config, c: Config, effects: seq<Effect<K>>, polls: set<nat>): Config {
    if |effects| in polls then FileAt(c, effects)
    else if effects == [] then loaded
    else
      var n := |effects| - 1;
      if effects[n].Reload? then FileAt(c, effects[..n]) else LoadedAt(loaded, c, effects[..n], polls)
  }

  function Restarts<K>(effects: seq<Effect<K>>): seq<K> {
    if effects == [] then []
    else
      var n := |effects| - 1;
      Restarts(effects[..n]) + if effects[n].Restart? then [effects[n].key] else []
  }

  function DrainedKeys<K(!new)>(r: Rules<K>, c: Config, keys: seq<K>): (d: set<K>)
    ensures forall k :: k in d ==> k in keys
  {
    set k | k in keys && r.drained(c, k)
  }

  ghost predicate AllPresent<K(!new)>(r: Rules<K>, c: Config, keys: seq<K>) { forall k :: k in keys ==> r.present(c, k) }

  /** The run of a script on a file: what it takes as its order there. */
  function Order<K(==,!new)>(r: Rules<K>, c: Config, keys: seq<K>): seq<K> { RecoveryOrder(keys, DrainedKeys(r, c, keys)) }

  function FullRun<K(==,!new)>(r: Rules<K>, c: Config, keys: seq<K>): seq<Effect<K>> { Trace(r, c, Order(r, c, keys)) }

  // ---------------------------------------------------------------- concatenation

  lemma {:induction false} FileAtConcat<K>(c: Config, a: seq<Effect<K>>, b: seq<Effect<K>>)
    ensures FileAt(c, a + b) == FileAt(FileAt(c, a), b)
  {
    if b == [] {
      assert a + b == a;
    } else {
      var n := |b| - 1;
      FileAtConcat(c, a, b[..n]);
      assert (a + b)[..|a| + n] == a + b[..n];
    }
  }

  /** A signal leaves tinylb with the file as it is. */
  lemma LoadedAfterReload<K>(loaded: Config, c: Config, effects: seq<Effect<K>>, polls: set<nat>)
    requires effects != [] && effects[|effects| - 1].Reload?
    ensures LoadedAt(loaded, c, effects, polls) == FileAt(c, effects)
  {
  }

  /** What is loaded was the file at some time before, or was loaded at the start. */
  lemma {:induction false} LoadedIsEarlier<K>(loaded: Config, c: Config, effects: seq<Effect<K>>, polls: set<nat>) returns (j: nat)
    ensures j <= |effects|
    ensures LoadedAt(loaded, c, effects, polls) == loaded || LoadedAt(loaded, c, effects, polls) == FileAt(c, effects[..j])
  {
    hide FileAt;
    j := |effects|;
    assert effects[..j] == effects;
    if |effects| !in polls && effects != [] {
      var n := |effects| - 1;
      if effects[n].Reload? {
        j := n;
      } else {
        j := LoadedIsEarlier(loaded, c, effects[..n], polls);
        assert effects[..n][..j] == effects[..j];
      }
    }
  }

  lemma {:induction false} RestartsConcat<K>(a: seq<Effect<K>>, b: seq<Effect<K>>)
    ensures Restarts(a + b) == Restarts(a) + Restarts(b)
  {
    if b == [] {
      assert a + b == a;
    } else {
      var n := |b| - 1;
      RestartsConcat(a, b[..n]);
      assert (a + b)[..|a| + n] == a + b[..n];
    }
  }

  // --------------------------------------------------------------- one target's part

  /** Where one target's part can stop, and what is in the file then. */
  lemma StepCut<K>(r: Rules<K>, c: Config, k: K, cut: nat)
    requires cut <= |StepTrace(r, c, k)|
    ensures FileAt(c, StepTrace(r, c, k)[..cut]) == FileInStep(r, c, k, cut)
  {
    var t := StepTrace(r, c, k);
    NoEffects<K>(c);
    hide FileAt;
    assert t[..0] == [];
    CutOne(c, t, 0);
    CutOne(c, t, 1);
    CutOne(c, t, 2);
    if r.drained(c, k) {
      assert t == UndrainSteps(r, c, k);
    } else {
      CutOne(c, t, 3);
      CutOne(c, t, 4);
    }
  }

  ghost function FileInStep<K>(r: Rules<K>, c: Config, k: K, cut: nat): Config {
    if cut == 0 then c
    else if cut <= |DrainSteps(r, c, k)| + 1 then Drained(r, c, k)
    else r.mark(Drained(r, c, k), k, false)
  }

  lemma CutOne<K>(c: Config, t: seq<Effect<K>>, i: nat)
    requires i < |t|
    ensures FileAt(c, t[..i + 1]) == if t[i].Write? then t[i].config else FileAt(c, t[..i])
  {
    assert t[..i + 1][..i] == t[..i];
  }

  // ------------------------------------------------------------------- whole runs

  lemma TraceSnoc<K>(r: Rules<K>, c: Config, order: seq<K>, k: K)
    ensures Trace(r, c, order + [k]) == Trace(r, c, order) + StepTrace(r, FileAfter(r, c, order), k)
    ensures FileAfter(r, c, order + [k]) == r.mark(Drained(r, FileAfter(r, c, order), k), k, false)
  {
    assert (order + [k])[..|order|] == order;
    hide StepTrace;
  }

  /** A run that stopped in its i-th target's part did a prefix of the full run. */
  lemma {:induction false} PartialRun<K>(r: Rules<K>, c: Config, order: seq<K>, i: nat, cut: nat)
    requires i < |order| && cut <= |StepTrace(r, FileAfter(r, c, order[..i]), order[i])|
    ensures var before, step := Trace(r, c, order[..i]), StepTrace(r, FileAfter(r, c, order[..i]), order[i]);
      && |before| + |step| <= |Trace(r, c, order)|
      && Trace(r, c, order)[..|before| + cut] == before + step[..cut]
      && (|before| + |step| == |Trace(r, c, order)| <==> i == |order| - 1)
  {
    hide StepTrace, FileAfter;
    var n := |order| - 1;
    if i < n {
      assert order[..n][..i] == order[..i];
      PartialRun(r, c, order[..n], i, cut);
      StepNonempty(r, FileAfter(r, c, order[..n]), order[n]);
    }
  }

  lemma TracePrefix<K>(r: Rules<K>, c: Config, order: seq<K>, n: nat)
    requires n <= |order|
    ensures Trace(r, c, order[..n]) <= Trace(r, c, order)
  {
    if n < |order| {
      PartialRun(r, c, order, n, 0);
    } else {
      assert order[..n] == order;
    }
  }

  lemma StepNonempty<K>(r: Rules<K>, c: Config, k: K)
    ensures var t := StepTrace(r, c, k); |t| == |DrainSteps(r, c, k)| + 3 && t[|t| - 1].Reload?
  {
  }

  lemma NoEffects<K>(c: Config)
    ensures var none: seq<Effect<K>> := []; FileAt(c, none) == c
  {
  }

  /** What a run that gets through leaves in the file. */
  lemma {:induction false} TraceEnds<K>(r: Rules<K>, c: Config, order: seq<K>)
    ensures FileAt(c, Trace(r, c, order)) == FileAfter(r, c, order)
  {
    hide FileAt;
    if order == [] {
      NoEffects<K>(c);
    } else {
      var n := |order| - 1;
      var before, k := FileAfter(r, c, order[..n]), order[n];
      var step := StepTrace(r, before, k);
      TraceEnds(r, c, order[..n]);
      FileAtConcat(c, Trace(r, c, order[..n]), step);
      StepCut(r, before, k, |step|);
      assert step[..|step|] == step;
    }
  }

  /** Its last effect is a signal. */
  lemma TraceLast<K>(r: Rules<K>, c: Config, order: seq<K>)
    requires order != []
    ensures var t := Trace(r, c, order); t != [] && t[|t| - 1].Reload?
  {
    var n := |order| - 1;
    StepNonempty(r, FileAfter(r, c, order[..n]), order[n]);
    hide StepTrace;
  }

  lemma DrainedStage<K(!new)>(r: Rules<K>, c: Config, keys: seq<K>, k: K)
    requires Lawful(r) && AllPresent(r, c, keys) && k in keys
    ensures DrainedKeys(r, Drained(r, c, k), keys) == DrainedKeys(r, c, keys) + {k}
    ensures AllPresent(r, Drained(r, c, k), keys)
  {
    if !r.drained(c, k) {
      var after := r.mark(c, k, true);
      assert r.present(c, k);
      assert forall l :: l in keys && l != k ==> r.drained(after, l) == r.drained(c, l);
      assert forall l :: l in keys ==> r.present(after, l) == r.present(c, l);
    }
  }

  lemma UndrainedStage<K(!new)>(r: Rules<K>, c: Config, keys: seq<K>, k: K)
    requires Lawful(r) && AllPresent(r, c, keys)
    ensures DrainedKeys(r, r.mark(c, k, false), keys) == DrainedKeys(r, c, keys) - {k}
    ensures AllPresent(r, r.mark(c, k, false), keys)
  {
    var after := r.mark(c, k, false);
    assert !r.drained(after, k);
    assert forall l :: l in keys && l != k ==> r.drained(after, l) == r.drained(c, l);
    assert forall l :: l in keys ==> r.present(after, l) == r.present(c, l);
  }

  /** Doing targets takes exactly those out of the drained ones. */
  lemma {:induction false} FileAfterStage<K(!new)>(r: Rules<K>, c: Config, keys: seq<K>, order: seq<K>)
    requires Lawful(r) && AllPresent(r, c, keys) && forall x :: x in order ==> x in keys
    ensures DrainedKeys(r, FileAfter(r, c, order), keys) == DrainedKeys(r, c, keys) - Elems(order)
    ensures AllPresent(r, FileAfter(r, c, order), keys)
  {
    hide Lawful, AllPresent, DrainedKeys, Drained;
    if order != [] {
      var n := |order| - 1;
      var before, k := FileAfter(r, c, order[..n]), order[n];
      FileAfterStage(r, c, keys, order[..n]);
      DrainedStage(r, before, keys, k);
      UndrainedStage(r, Drained(r, before, k), keys, k);
      assert order == order[..n] + [k];
    }
  }

  /** At a place of the run: the k-th target's part of the trace up to its cut-th effect. */
  lemma {:induction false} SplitCut<K>(r: Rules<K>, c: Config, order: seq<K>, cut: nat) returns (k: nat, rest: nat)
    requires cut < |Trace(r, c, order)|
    ensures k < |order| && rest < |StepTrace(r, FileAfter(r, c, order[..k]), order[k])|
    ensures cut == |Trace(r, c, order[..k])| + rest
    ensures Trace(r, c, order)[..cut]
         == Trace(r, c, order[..k]) + StepTrace(r, FileAfter(r, c, order[..k]), order[k])[..rest]
    ensures Trace(r, c, order)[cut] == StepTrace(r, FileAfter(r, c, order[..k]), order[k])[rest]
  {
    hide StepTrace, FileAfter;
    var n := |order| - 1;
    var t := Trace(r, c, order[..n]);
    if cut < |t| {
      k, rest := SplitCut(r, c, order[..n], cut);
      assert order[..n][..k] == order[..k];
    } else {
      k, rest := n, cut - |t|;
    }
  }

  /** Every point where a run can stop is a stage: k targets done, and perhaps the next one drained. */
  lemma CutIsStage<K(!new)>(r: Rules<K>, c: Config, keys: seq<K>, order: seq<K>, cut: nat) returns (k: nat, working: bool)
    requires Lawful(r) && AllPresent(r, c, keys) && cut <= |Trace(r, c, order)| && forall x :: x in order ==> x in keys
    ensures k <= |order| && (working ==> k < |order|)
    ensures var f := FileAt(c, Trace(r, c, order)[..cut]);
      DrainedKeys(r, f, keys) == Stage(DrainedKeys(r, c, keys), order, k, working) && AllPresent(r, f, keys)
  {
    hide *;
    var t := Trace(r, c, order);
    if cut == |t| {
      k, working := |order|, false;
      assert t[..cut] == t && order[..k] == order;
      TraceEnds(r, c, order);
      FileAfterStage(r, c, keys, order);
      StageDone(DrainedKeys(r, c, keys), order, k);
    } else {
      var rest;
      k, rest := SplitCut(r, c, order, cut);
      var before := FileAfter(r, c, order[..k]);
      var part := StepTrace(r, before, order[k])[..rest];
      TraceEnds(r, c, order[..k]);
      FileAtConcat(c, Trace(r, c, order[..k]), part);
      FileAfterStage(r, c, keys, order[..k]);
      k, working := StageWithin(r, c, keys, order, k, before, rest);
    }
  }

  lemma StageDone<K(!new)>(drained: set<K>, order: seq<K>, k: nat)
    requires k <= |order|
    ensures Stage(drained, order, k, false) == drained - Elems(order[..k])
    ensures k < |order| ==> Stage(drained, order, k, true) == drained - Elems(order[..k]) + {order[k]}
    ensures k < |order| ==> Stage(drained, order, k + 1, false) == Stage(drained, order, k, true) - {order[k]}
  {
    if k < |order| {
      assert order[..k + 1] == order[..k] + [order[k]];
    }
  }

  lemma StageWithin<K(!new)>(r: Rules<K>, c: Config, keys: seq<K>, order: seq<K>, done: nat, before: Config, rest: nat)
    returns (k: nat, working: bool)
    requires Lawful(r) && AllPresent(r, before, keys) && done < |order| && order[done] in keys
    requires DrainedKeys(r, before, keys) == DrainedKeys(r, c, keys) - Elems(order[..done])
    requires rest <= |StepTrace(r, before, order[done])|
    ensures k <= |order| && (working ==> k < |order|)
    ensures var f := FileAt(before, StepTrace(r, before, order[done])[..rest]);
      AllPresent(r, f, keys) && DrainedKeys(r, f, keys) == Stage(DrainedKeys(r, c, keys), order, k, working)
  {
    var d, x := DrainedKeys(r, c, keys), order[done];
    var pre := |DrainSteps(r, before, x)|;
    hide Lawful, FileAt, FileAfter, StepTrace, DrainSteps, UndrainSteps, Drained, DrainedKeys, Stage, AllPresent;
    StepCut(r, before, x, rest);
    StageDone(d, order, done);
    if rest == 0 {
      k, working := done, false;
    } else {
      DrainedStage(r, before, keys, x);
      if rest <= pre + 1 {
        k, working := done, true;
      } else {
        k, working := done + 1, false;
        UndrainedStage(r, Drained(r, before, x), keys, x);
      }
    }
  }

  // ---------------------------------------------------- what the scripts' loops need

  lemma StepCuts<K>(r: Rules<K>, c: Config, k: K)
    ensures var step, pre := StepTrace(r, c, k), |DrainSteps(r, c, k)|;
      && |step| == pre + 3 && step[..0] == []
      && (if r.drained(c, k) then pre == 0 else pre == 2 && step[0] == Write(r.mark(c, k, true)) && step[1] == Reload)
      && step[pre] == Restart(k) && step[pre + 1].Write? && step[pre + 1].config == r.mark(Drained(r, c, k), k, false)
      && step[pre + 2] == Reload
      && forall cut :: 0 <= cut <= pre + 3 ==> FileAt(c, step[..cut]) == FileInStep(r, c, k, cut)
  {
    hide FileAt;
    var step, pre := StepTrace(r, c, k), |DrainSteps(r, c, k)|;
    forall cut | 0 <= cut <= pre + 3
      ensures FileAt(c, step[..cut]) == FileInStep(r, c, k, cut)
    {
      StepCut(r, c, k, cut);
    }
  }

  lemma NothingDone<K>(r: Rules<K>, c: Config, order: seq<K>)
    ensures Trace(r, c, order[..0]) == [] && FileAfter(r, c, order[..0]) == c
    ensures var none: seq<Effect<K>> := []; FileAt(c, none) == c
    ensures order != [] ==> Trace(r, c, order) != []
  {
    if order != [] {
      PartialRun(r, c, order, 0, 0);
      StepNonempty(r, c, order[0]);
    }
  }

  /** The run after the targets before i and a part of target i. */
  lemma PartOfRun<K>(r: Rules<K>, c: Config, order: seq<K>, i: nat, part: nat)
    requires i < |order| && part <= |StepTrace(r, FileAfter(r, c, order[..i]), order[i])|
    ensures var t, done := Trace(r, c, order), Trace(r, c, order[..i]);
      var before := FileAfter(r, c, order[..i]);
      var step := StepTrace(r, before, order[i]);
      && |done| + |step| <= |t|
      && t[..|done| + part] == done + step[..part]
      && (part > 0 ==> t[|done| + part - 1] == step[part - 1])
      && FileAt(c, t[..|done| + part]) == FileAt(before, step[..part])
      && (|done| + part == |t| <==> part == |step| && i + 1 == |order|)
      && (part == |step| ==> Trace(r, c, order[..i + 1]) == t[..|done| + part])
      && (part == |step| ==> FileAfter(r, c, order[..i + 1]) == FileAt(c, t[..|done| + part]))
  {
    hide StepTrace, FileAfter, Trace, FileAt;
    var t, done := Trace(r, c, order), Trace(r, c, order[..i]);
    var before := FileAfter(r, c, order[..i]);
    var step := StepTrace(r, before, order[i]);
    PartialRun(r, c, order, i, part);
    TraceEnds(r, c, order[..i]);
    FileAtConcat(c, done, step[..part]);
    assert part > 0 ==> t[|done| + part - 1] == t[..|done| + part][|done| + part - 1];
    if part == |step| {
      assert order[..i + 1] == order[..i] + [order[i]] && step[..part] == step;
      TraceSnoc(r, c, order[..i], order[i]);
      TraceEnds(r, c, order[..i + 1]);
    }
  }

  // ------------------------------------------------------------------ main results

  /** A run in progress: its targets, all listed in the config, each once. */
  ghost predicate Started<K(!new)>(r: Rules<K>, c: Config, keys: seq<K>) {
    Lawful(r) && Unique(keys) && AllPresent(r, c, keys)
  }

  /** Wherever a run stops, at most as many targets are drained in the file as when it started, or one. */
  lemma DrainedTargetsBounded<K(!new)>(r: Rules<K>, c: Config, keys: seq<K>, cut: nat)
    requires Started(r, c, keys) && cut <= |FullRun(r, c, keys)|
    ensures var f := FileAt(c, FullRun(r, c, keys)[..cut]);
      |DrainedKeys(r, f, keys)| <= Max(|DrainedKeys(r, c, keys)|, 1) && Started(r, f, keys)
  {
    hide *;
    var d, order := DrainedKeys(r, c, keys), Order(r, c, keys);
    StartedMeans(r, c, keys);
    var k, working := CutIsStage(r, c, keys, order, cut);
    StageBounded(keys, d, k, working);
    StartedMeans(r, FileAt(c, Trace(r, c, order)[..cut]), keys);
  }

  /** And in tinylb at most as many as in the file, unless more were when the run started. */
  lemma LoadedTargetsBounded<K(!new)>(r: Rules<K>, loaded: Config, c: Config, keys: seq<K>, cut: nat, polls: set<nat>)
    requires Started(r, c, keys) && cut <= |FullRun(r, c, keys)|
    ensures var now := LoadedAt(loaded, c, FullRun(r, c, keys)[..cut], polls);
      |DrainedKeys(r, now, keys)| <= Max(|DrainedKeys(r, loaded, keys)|, Max(|DrainedKeys(r, c, keys)|, 1))
  {
    hide *;
    var t := FullRun(r, c, keys);
    var j := LoadedIsEarlier(loaded, c, t[..cut], polls);
    assert t[..cut][..j] == t[..j];
    DrainedTargetsBounded(r, c, keys, j);
    MaxIs(|DrainedKeys(r, loaded, keys)|, Max(|DrainedKeys(r, c, keys)|, 1));
  }

  lemma MaxIs(x: int, y: int)
    ensures x <= Max(x, y) && y <= Max(x, y)
  {
  }

  lemma StartedMeans<K(!new)>(r: Rules<K>, c: Config, keys: seq<K>)
    ensures Started(r, c, keys) <==> Lawful(r) && Unique(keys) && AllPresent(r, c, keys)
    ensures FullRun(r, c, keys) == Trace(r, c, Order(r, c, keys))
    ensures Order(r, c, keys) == RecoveryOrder(keys, DrainedKeys(r, c, keys))
    ensures |Order(r, c, keys)| == |keys| && forall x :: x in Order(r, c, keys) <==> x in keys
    ensures Unique(keys) ==> Unique(Order(r, c, keys))
  {
    OrderIsPermutation(keys, DrainedKeys(r, c, keys));
    if Unique(keys) {
      OrderUnique(keys, DrainedKeys(r, c, keys));
    }
  }

  /** lb.toml and what tinylb has loaded. */
  datatype Known = Known(file: Config, loaded: Config)

  /** A run that stops after cut effects, with tinylb's own loads meanwhile. */
  datatype Attempt = Attempt(cut: nat, polls: set<nat>)

  function Attempted<K(==,!new)>(r: Rules<K>, s: Known, keys: seq<K>, a: Attempt): Known {
    var t := FullRun(r, s.file, keys);
    var done := t[..Min(a.cut, |t|)];
    Known(FileAt(s.file, done), LoadedAt(s.loaded, s.file, done, a.polls))
  }

  /** The aborted runs of a script, one after the other. */
  function Reruns<K(==,!new)>(r: Rules<K>, s: Known, keys: seq<K>, attempts: seq<Attempt>): Known {
    if attempts == [] then s
    else
      var n := |attempts| - 1;
      Attempted(r, Reruns(r, s, keys, attempts[..n]), keys, attempts[n])
  }

  /** The same over any number of re-runs, in the file and in tinylb. */
  lemma {:induction false} RerunsBounded<K(!new)>(r: Rules<K>, s: Known, keys: seq<K>, attempts: seq<Attempt>)
    requires Started(r, s.file, keys)
    ensures var e := Reruns(r, s, keys, attempts);
      && |DrainedKeys(r, e.file, keys)| <= Max(|DrainedKeys(r, s.file, keys)|, 1) && Started(r, e.file, keys)
      && |DrainedKeys(r, e.loaded, keys)| <= Max(|DrainedKeys(r, s.loaded, keys)|, Max(|DrainedKeys(r, s.file, keys)|, 1))
  {
    hide FullRun, FileAt, LoadedAt, Started, DrainedKeys;
    if attempts != [] {
      var n := |attempts| - 1;
      RerunsBounded(r, s, keys, attempts[..n]);
      var m, a := Reruns(r, s, keys, attempts[..n]), attempts[n];
      var cut := Min(a.cut, |FullRun(r, m.file, keys)|);
      DrainedTargetsBounded(r, m.file, keys, cut);
      LoadedTargetsBounded(r, m.loaded, m.file, keys, cut, a.polls);
    }
  }

  // -------------------------------------------------- what marking does not change

  ghost predicate MarkKeeps<K(!new)>(r: Rules<K>, p: Config -> bool) {
    forall c: Config, k: K, d: bool :: p(c) ==> p(r.mark(c, k, d))
  }

  ghost predicate WritesKeep<K>(p: Config -> bool, t: seq<Effect<K>>) {
    forall i :: 0 <= i < |t| && t[i].Write? ==> p(t[i].config)
  }

  lemma {:induction false} TraceKeeps<K(!new)>(r: Rules<K>, p: Config -> bool, c: Config, order: seq<K>)
    requires MarkKeeps(r, p) && p(c)
    ensures WritesKeep(p, Trace(r, c, order)) && p(FileAfter(r, c, order))
  {
    if order != [] {
      var n := |order| - 1;
      TraceKeeps(r, p, c, order[..n]);
    }
  }

  lemma {:induction false} FileAtKeeps<K>(p: Config -> bool, c: Config, t: seq<Effect<K>>)
    requires WritesKeep(p, t) && p(c)
    ensures p(FileAt(c, t))
  {
    if t != [] {
      FileAtKeeps(p, c, t[..|t| - 1]);
    }
  }

  lemma LoadedAtKeeps<K>(p: Config -> bool, loaded: Config, c: Config, t: seq<Effect<K>>, polls: set<nat>)
    requires WritesKeep(p, t) && p(c) && p(loaded)
    ensures p(LoadedAt(loaded, c, t, polls))
  {
    var j := LoadedIsEarlier(loaded, c, t, polls);
    FileAtKeeps(p, c, t[..j]);
  }

  /** What a run never changes stays over all re-runs, in the file and in tinylb. */
  lemma {:induction false} RerunsKeep<K(!new)>(r: Rules<K>, p: Config -> bool, s: Known, keys: seq<K>, attempts: seq<Attempt>)
    requires MarkKeeps(r, p) && p(s.file) && p(s.loaded)
    ensures var e := Reruns(r, s, keys, attempts); p(e.file) && p(e.loaded)
  {
    hide FileAt, LoadedAt, Trace, Order;
    if attempts != [] {
      var n := |attempts| - 1;
      RerunsKeep(r, p, s, keys, attempts[..n]);
      var m, a := Reruns(r, s, keys, attempts[..n]), attempts[n];
      var t := FullRun(r, m.file, keys);
      TraceKeeps(r, p, m.file, Order(r, m.file, keys));
      FileAtKeeps(p, m.file, t[..Min(a.cut, |t|)]);
      LoadedAtKeeps(p, m.loaded, m.file, t[..Min(a.cut, |t|)], a.polls);
    }
  }

  /** At a restart: whose it is, what is in the file and what tinylb has loaded. */
  lemma RestartPoint<K(!new)>(r: Rules<K>, loaded: Config, c: Config, order: seq<K>, i: nat, polls: set<nat>) returns (k: nat)
    requires i < |Trace(r, c, order)| && Trace(r, c, order)[i].Restart?
    ensures k < |order| && Trace(r, c, order)[i].key == order[k]
    ensures var f := FileAt(c, Trace(r, c, order)[..i]);
      && f == Drained(r, FileAfter(r, c, order[..k]), order[k])
      && FileAt(c, Trace(r, c, order)[..i + 1]) == f
      && LoadedAt(loaded, c, Trace(r, c, order)[..i], polls) == (if i == 0 && 0 !in polls then loaded else f)
      && (i == 0 <==> k == 0 && r.drained(c, order[0]))
  {
    var rest;
    k, rest := SplitCut(r, c, order, i);
    var before, x := FileAfter(r, c, order[..k]), order[k];
    var t, prefix := StepTrace(r, before, x), Trace(r, c, order[..k]);
    var done := Trace(r, c, order)[..i];
    assert rest == |DrainSteps(r, before, x)|;
    assert k == 0 ==> before == c && prefix == [];
    assert r.drained(before, x) <==> rest == 0;
    assert rest == 0 || t[rest - 1].Reload?;
    CutOne(c, Trace(r, c, order), i);
    TraceEnds(r, c, order[..k]);
    FileAtConcat(c, prefix, t[..rest]);
    StepCut(r, before, x, rest);
    hide FileAt, StepTrace, FileAfter, DrainSteps, UndrainSteps;
    if k > 0 {
      TraceLast(r, c, order[..k]);
    }
    hide Trace;
    if i > 0 {
      assert done[i - 1] == if rest > 0 then t[..rest][rest - 1] else prefix[|prefix| - 1];
      LoadedAfterReload(loaded, c, done, polls);
      hide LoadedAt;
    } else {
      assert done == [];
    }
  }

  /** A target is restarted only while it is drained in the file. */
  lemma RestartedWhileDrained<K(!new)>(r: Rules<K>, c: Config, keys: seq<K>, i: nat)
    requires Started(r, c, keys) && i < |FullRun(r, c, keys)| && FullRun(r, c, keys)[i].Restart?
    ensures var t := FullRun(r, c, keys);
      t[i].key in keys && r.drained(FileAt(c, t[..i]), t[i].key) && r.drained(FileAt(c, t[..i + 1]), t[i].key)
  {
    hide Lawful, AllPresent, FileAt, Trace, RecoveryOrder;
    StartedMeans(r, c, keys);
    var order := Order(r, c, keys);
    var k := RestartPoint(r, c, c, order, i, {});
    assert order[k] in keys;
    assert forall x :: x in order[..k] ==> x in order;
    FileAfterStage(r, c, keys, order[..k]);
    DrainedStage(r, FileAfter(r, c, order[..k]), keys, order[k]);
  }

  /** Conversely each target of the order has its restart, and those before it are back in rotation then. */
  lemma RestartAt<K(!new)>(r: Rules<K>, c: Config, keys: seq<K>, q: nat) returns (i: nat)
    requires Started(r, c, keys) && q < |Order(r, c, keys)|
    ensures var t, order := FullRun(r, c, keys), Order(r, c, keys);
      && i < |t| && t[i] == Restart(order[q])
      && AllPresent(r, FileAt(c, t[..i]), keys)
      && forall p :: 0 <= p < q ==> !r.drained(FileAt(c, t[..i]), order[p])
  {
    hide Lawful, AllPresent, FileAt, Trace, RecoveryOrder, Unique, FileAfter;
    var order := Order(r, c, keys);
    StartedMeans(r, c, keys);
    var before, x := FileAfter(r, c, order[..q]), order[q];
    var step, prefix := StepTrace(r, before, x), Trace(r, c, order[..q]);
    var rest := |DrainSteps(r, before, x)|;
    i := |prefix| + rest;
    PartialRun(r, c, order, q, rest);
    PartialRun(r, c, order, q, rest + 1);
    var t := Trace(r, c, order);
    assert t[i] == t[..i + 1][i] == (prefix + step[..rest + 1])[i] == step[rest];
    StepNonempty(r, before, x);
    TraceEnds(r, c, order[..q]);
    FileAtConcat(c, prefix, step[..rest]);
    StepCut(r, before, x, rest);
    assert forall y :: y in order[..q] ==> y in order;
    FileAfterStage(r, c, keys, order[..q]);
    assert x in keys;
    DrainedStage(r, before, keys, x);
    EarlierUndrained(r, c, keys, Drained(r, before, x), order, q);
  }

  lemma EarlierUndrained<K(!new)>(r: Rules<K>, c: Config, keys: seq<K>, f: Config, order: seq<K>, q: nat)
    requires Unique(order) && q < |order| && forall x :: x in order ==> x in keys
    requires DrainedKeys(r, f, keys) == DrainedKeys(r, c, keys) - Elems(order[..q]) + {order[q]}
    ensures forall p :: 0 <= p < q ==> !r.drained(f, order[p])
  {
    forall p | 0 <= p < q
      ensures !r.drained(f, order[p])
    {
      assert order[p] == order[..q][p] && order[p] in keys;
      assert order[p] !in DrainedKeys(r, f, keys);
    }
  }

  /** Which other targets are drained while one is restarted: those that were drained at the start and come
      later, if the one restarted was drained at the start as well. Anything else is as it was. */
  ghost predicate DrainedDuring<K(!new)>(r: Rules<K>, c: Config, keys: seq<K>, x: K, y: K) {
    if y in keys then y == x || (r.drained(c, x) && r.drained(c, y) && Before(keys, x, y)) else r.drained(c, y)
  }

  lemma DrainedAtRestart<K(!new)>(r: Rules<K>, c: Config, keys: seq<K>, i: nat, y: K)
    requires Started(r, c, keys) && i < |FullRun(r, c, keys)| && FullRun(r, c, keys)[i].Restart?
    ensures var t := FullRun(r, c, keys);
      r.drained(FileAt(c, t[..i]), y) <==> DrainedDuring(r, c, keys, t[i].key, y)
  {
    hide Lawful, AllPresent, FileAt, Trace, RecoveryOrder, DrainedKeys, Drained, Unique, Before;
    StartedMeans(r, c, keys);
    var d, order := DrainedKeys(r, c, keys), Order(r, c, keys);
    var k := RestartPoint(r, c, c, order, i, {});
    var before, x := FileAfter(r, c, order[..k]), order[k];
    var f := Drained(r, before, x);
    assert x in keys;
    assert forall z :: z in order[..k] ==> z in order;
    if y in keys {
      FileAfterStage(r, c, keys, order[..k]);
      DrainedStage(r, before, keys, x);
      DrainedIn(r, f, keys, y);
      DrainedIn(r, c, keys, y);
      DrainedIn(r, c, keys, x);
      if y in d && y != x {
        DrainedToCome(keys, d, k, y);
      }
    } else {
      FileAfterUntouched(r, c, order[..k], y);
      MarkedUntouched(r, before, x, y);
    }
  }

  lemma {:induction false} FileAfterUntouched<K(!new)>(r: Rules<K>, c: Config, order: seq<K>, y: K)
    requires Lawful(r) && y !in order
    ensures r.drained(FileAfter(r, c, order), y) == r.drained(c, y)
  {
    hide Lawful, Drained;
    if order != [] {
      var n := |order| - 1;
      var before, k := FileAfter(r, c, order[..n]), order[n];
      FileAfterUntouched(r, c, order[..n], y);
      MarkedUntouched(r, before, k, y);
      MarkUntouched(r, Drained(r, before, k), k, false, y);
    }
  }

  lemma MarkUntouched<K(!new)>(r: Rules<K>, c: Config, x: K, d: bool, y: K)
    requires Lawful(r) && y != x
    ensures r.drained(r.mark(c, x, d), y) == r.drained(c, y)
  {
  }

  lemma MarkedUntouched<K(!new)>(r: Rules<K>, c: Config, x: K, y: K)
    requires Lawful(r) && y != x
    ensures r.drained(Drained(r, c, x), y) == r.drained(c, y)
  {
    MarkUntouched(r, c, x, true, y);
  }

  lemma DrainedIn<K(!new)>(r: Rules<K>, c: Config, keys: seq<K>, x: K)
    requires x in keys
    ensures x in DrainedKeys(r, c, keys) <==> r.drained(c, x)
  {
  }

  /** If the run stops there, because the target did not become healthy or for any other reason, the target
      stays drained and the next run starts with it. */
  lemma StoppedTargetRecoversFirst<K(!new)>(r: Rules<K>, c: Config, keys: seq<K>, i: nat)
    requires Started(r, c, keys) && i < |FullRun(r, c, keys)| && FullRun(r, c, keys)[i].Restart?
    ensures var f := FileAt(c, FullRun(r, c, keys)[..i + 1]);
      var again := Order(r, f, keys);
      again != [] && again[0] == FullRun(r, c, keys)[i].key && r.drained(f, again[0])
  {
    hide Lawful, AllPresent, FileAt, Trace, RecoveryOrder, DrainedKeys, Drained, Unique;
    RestartedWhileDrained(r, c, keys, i);
    StartedMeans(r, c, keys);
    var d, order := DrainedKeys(r, c, keys), Order(r, c, keys);
    var k := RestartPoint(r, c, c, order, i, {});
    assert order[k] in keys;
    assert forall x :: x in order[..k] ==> x in order;
    FileAfterStage(r, c, keys, order[..k]);
    DrainedStage(r, FileAfter(r, c, order[..k]), keys, order[k]);
    StageDone(d, order, k);
    StoppedComesFirst(keys, d, k);
  }

  /** A run that gets through restarts every target exactly once, and none is drained at the end, neither in
      the file nor in what tinylb has loaded. */
  lemma FullRunFinishes<K(!new)>(r: Rules<K>, loaded: Config, c: Config, keys: seq<K>, polls: set<nat>)
    requires Started(r, c, keys) && keys != []
    ensures var t := FullRun(r, c, keys);
      && multiset(Restarts(t)) == multiset(keys)
      && DrainedKeys(r, FileAt(c, t), keys) == {}
      && LoadedAt(loaded, c, t, polls) == FileAt(c, t)
  {
    hide Lawful, AllPresent, FileAt, LoadedAt, Trace, RecoveryOrder, DrainedKeys;
    var order := Order(r, c, keys);
    StartedMeans(r, c, keys);
    OrderIsPermutation(keys, DrainedKeys(r, c, keys));
    RestartsOfTrace(r, c, order);
    TraceEnds(r, c, order);
    TraceLast(r, c, order);
    LoadedAfterReload(loaded, c, Trace(r, c, order), polls);
    FileAfterStage(r, c, keys, order);
  }

  lemma {:induction false} RestartsOfTrace<K>(r: Rules<K>, c: Config, order: seq<K>)
    ensures Restarts(Trace(r, c, order)) == order
  {
    if order != [] {
      var n := |order| - 1;
      var before := FileAfter(r, c, order[..n]);
      RestartsOfTrace(r, c, order[..n]);
      RestartsConcat(Trace(r, c, order[..n]), StepTrace(r, before, order[n]));
      RestartsOfStep(r, before, order[n]);
    }
  }

  lemma RestartsOfStep<K>(r: Rules<K>, c: Config, k: K)
    ensures Restarts(StepTrace(r, c, k)) == [k]
  {
    RestartsConcat(DrainSteps(r, c, k), UndrainSteps(r, c, k));
    var drain: Effect<K>, undrain: Effect<K> := Write(r.mark(c, k, true)), Write(r.mark(Drained(r, c, k), k, false));
    RestartsOfThree(Restart(k), undrain, Reload);
    RestartsOfTwo<K>(drain, Reload);
  }

  lemma RestartsSnoc<K>(effects: seq<Effect<K>>, e: Effect<K>)
    ensures Restarts(effects + [e]) == Restarts(effects) + if e.Restart? then [e.key] else []
  {
    assert (effects + [e])[..|effects|] == effects;
  }

  lemma RestartsOfTwo<K>(a: Effect<K>, b: Effect<K>)
    ensures Restarts([a, b]) == (if a.Restart? then [a.key] else []) + if b.Restart? then [b.key] else []
  {
    var none: seq<Effect<K>> := [];
    assert Restarts(none) == [];
    RestartsSnoc(none, a);
    RestartsSnoc([a], b);
    hide Restarts;
    assert none + [a] == [a] && [a] + [b] == [a, b];
  }

  lemma RestartsOfThree<K>(a: Effect<K>, b: Effect<K>, c: Effect<K>)
    ensures Restarts([a, b, c]) == Restarts([a, b]) + if c.Restart? then [c.key] else []
    ensures a.Restart? && !b.Restart? && !c.Restart? ==> Restarts([a, b, c]) == [a.key]
  {
    RestartsOfTwo(a, b);
    RestartsSnoc([a, b], c);
    assert [a, b] + [c] == [a, b, c];
  }

  // ------------------------------------------------- what the load balancer knows

  /** At every restart tinylb, too, has the target drained. */
  ghost predicate LoadedDrainedAtRestarts<K(!new)>(r: Rules<K>, loaded: Config, c: Config, keys: seq<K>, polls: set<nat>) {
    var t := FullRun(r, c, keys);
    forall i :: 0 <= i < |t| && t[i].Restart? ==> r.drained(LoadedAt(loaded, c, t[..i], polls), t[i].key)
  }

  /** The file has the first target of the order drained already, so no signal comes before its restart, and
      tinylb does not poll the file either. */
  predicate Behind<K>(r: Rules<K>, c: Config, order: seq<K>, polls: set<nat>) {
    order != [] && r.drained(c, order[0]) && 0 !in polls
  }

  /** tinylb is not behind the file on the first target of the order, or catches up before the run. */
  predicate UpToDate<K(==,!new)>(r: Rules<K>, loaded: Config, c: Config, keys: seq<K>, polls: set<nat>) {
    var order := Order(r, c, keys);
    Behind(r, c, order, polls) ==> r.drained(loaded, order[0])
  }

  /** A target found drained is restarted without another signal. So this holds exactly when the first target
      of the order, if the file has it drained, is also drained in tinylb, or tinylb loads the file by itself
      before the run begins. */
  lemma LoadedDrainedExactly<K(!new)>(r: Rules<K>, loaded: Config, c: Config, keys: seq<K>, polls: set<nat>)
    requires Started(r, c, keys)
    ensures LoadedDrainedAtRestarts(r, loaded, c, keys, polls) <==> UpToDate(r, loaded, c, keys, polls)
  {
    hide Lawful, AllPresent, FileAt, Trace, RecoveryOrder, DrainedKeys, Started, Unique, LoadedAt;
    StartedMeans(r, c, keys);
    var t, order := FullRun(r, c, keys), Order(r, c, keys);
    if UpToDate(r, loaded, c, keys, polls) {
      forall i | 0 <= i < |t| && t[i].Restart?
        ensures r.drained(LoadedAt(loaded, c, t[..i], polls), t[i].key)
      {
        RestartedWhileDrained(r, c, keys, i);
        var k := RestartPoint(r, loaded, c, order, i, polls);
      }
    } else {
      FirstEffect(r, c, order);
      NotLoadedDrained(r, loaded, c, keys, polls);
    }
  }

  lemma NotLoadedDrained<K(!new)>(r: Rules<K>, loaded: Config, c: Config, keys: seq<K>, polls: set<nat>)
    requires var t := FullRun(r, c, keys); t != [] && t[0].Restart? && !r.drained(loaded, t[0].key) && 0 !in polls
    ensures !LoadedDrainedAtRestarts(r, loaded, c, keys, polls)
  {
    var t := FullRun(r, c, keys);
    assert t[..0] == [];
    assert LoadedAt(loaded, c, t[..0], polls) == loaded;
  }

  lemma {:induction false} FirstEffect<K(!new)>(r: Rules<K>, c: Config, order: seq<K>)
    requires order != [] && r.drained(c, order[0])
    ensures Trace(r, c, order) != [] && Trace(r, c, order)[0] == Restart(order[0])
  {
    var n := |order| - 1;
    TraceSnoc(r, c, order[..n], order[n]);
    assert order == order[..n] + [order[n]];
    if n > 0 {
      FirstEffect(r, c, order[..n]);
    } else {
      assert FileAfter(r, c, order[..0]) == c;
      assert StepTrace(r, c, order[0])[0] == Restart(order[0]);
    }
  }

  // -------------------------------- a condition on what tinylb has loaded meanwhile

  /** From the moment a target is restarted until it is healthy, what tinylb has loaded meets the condition. */
  ghost predicate HoldsAtRestarts<K>(holds: (Config, K) -> bool, loaded: Config, c: Config, t: seq<Effect<K>>, polls: set<nat>) {
    forall i :: 0 <= i < |t| && t[i].Restart? ==>
      holds(LoadedAt(loaded, c, t[..i], polls), t[i].key) && holds(LoadedAt(loaded, c, t[..i + 1], polls), t[i].key)
  }

  /** While x is restarted tinylb has the file as it is then, if only from a poll during the restart. */
  predicate ByFile<K(==)>(r: Rules<K>, c: Config, order: seq<K>, polls: set<nat>, x: K) {
    x in order && (Behind(r, c, order, polls) && x == order[0] ==> 1 in polls)
  }

  lemma WhileRestarting<K(!new)>(r: Rules<K>, loaded: Config, c: Config, order: seq<K>, i: nat, polls: set<nat>) returns (k: nat)
    requires i < |Trace(r, c, order)| && Trace(r, c, order)[i].Restart?
    ensures k < |order| && Trace(r, c, order)[i].key == order[k] && (i == 0 <==> k == 0 && r.drained(c, order[0]))
    ensures var t := Trace(r, c, order);
      && LoadedAt(loaded, c, t[..i], polls) == (if i == 0 && 0 !in polls then loaded else FileAt(c, t[..i]))
      && LoadedAt(loaded, c, t[..i + 1], polls)
         == (if i == 0 && 0 !in polls && 1 !in polls then loaded else FileAt(c, t[..i]))
  {
    k := RestartPoint(r, loaded, c, order, i, polls);
    var t := Trace(r, c, order);
    hide Trace, FileAt;
    assert t[..i + 1][..i] == t[..i];
  }

  lemma RestartIn<K>(r: Rules<K>, c: Config, order: seq<K>, q: nat) returns (i: nat)
    requires q < |order|
    ensures i < |Trace(r, c, order)| && Trace(r, c, order)[i] == Restart(order[q])
  {
    hide Trace, FileAfter;
    var before, x := FileAfter(r, c, order[..q]), order[q];
    var step, prefix, rest := StepTrace(r, before, x), Trace(r, c, order[..q]), |DrainSteps(r, before, x)|;
    i := |prefix| + rest;
    PartialRun(r, c, order, q, rest + 1);
    var t := Trace(r, c, order);
    assert t[i] == t[..i + 1][i] == (prefix + step[..rest + 1])[i] == step[rest];
  }

  /** At each restart the condition on the file comes to something known before the run. */
  ghost predicate Foretold<K(!new)>(holds: (Config, K) -> bool, ok: K -> bool, c: Config, t: seq<Effect<K>>) {
    forall i :: 0 <= i < |t| && t[i].Restart? ==> (holds(FileAt(c, t[..i]), t[i].key) <==> ok(t[i].key))
  }

  /** The same condition on the file alone. */
  ghost predicate FileHoldsAtRestarts<K>(holds: (Config, K) -> bool, c: Config, t: seq<Effect<K>>) {
    forall i :: 0 <= i < |t| && t[i].Restart? ==> holds(FileAt(c, t[..i]), t[i].key)
  }

  lemma FileHoldsExactly<K(!new)>(r: Rules<K>, holds: (Config, K) -> bool, ok: K -> bool, c: Config, order: seq<K>)
    requires Foretold(holds, ok, c, Trace(r, c, order))
    ensures FileHoldsAtRestarts(holds, c, Trace(r, c, order)) <==> forall x :: x in order ==> ok(x)
  {
    hide Trace, FileAt;
    var t := Trace(r, c, order);
    if FileHoldsAtRestarts(holds, c, t) {
      forall x | x in order
        ensures ok(x)
      {
        var q :| 0 <= q < |order| && order[q] == x;
        var i := RestartIn(r, c, order, q);
      }
    } else {
      var i :| 0 <= i < |t| && t[i].Restart? && !holds(FileAt(c, t[..i]), t[i].key);
      var k := RestartPoint(r, c, c, order, i, {});
    }
  }

  /** So does the condition on what tinylb has loaded, but for the first target when tinylb may be behind on it. */
  lemma HoldsExactly<K(!new)>(r: Rules<K>, holds: (Config, K) -> bool, ok: K -> bool, loaded: Config, c: Config,
                              order: seq<K>, polls: set<nat>)
    requires Unique(order) && Foretold(holds, ok, c, Trace(r, c, order))
    ensures HoldsAtRestarts(holds, loaded, c, Trace(r, c, order), polls)
      <==> (Behind(r, c, order, polls) ==> holds(loaded, order[0])) && forall x :: ByFile(r, c, order, polls, x) ==> ok(x)
  {
    hide Trace, FileAt, LoadedAt;
    var t := Trace(r, c, order);
    if HoldsAtRestarts(holds, loaded, c, t, polls) {
      if Behind(r, c, order, polls) {
        var i := RestartIn(r, c, order, 0);
        var k := WhileRestarting(r, loaded, c, order, i, polls);
      }
      forall x | ByFile(r, c, order, polls, x)
        ensures ok(x)
      {
        var q :| 0 <= q < |order| && order[q] == x;
        var i := RestartIn(r, c, order, q);
        var k := WhileRestarting(r, loaded, c, order, i, polls);
      }
    } else {
      var i :| 0 <= i < |t| && t[i].Restart?
        && !(holds(LoadedAt(loaded, c, t[..i], polls), t[i].key) && holds(LoadedAt(loaded, c, t[..i + 1], polls), t[i].key));
      var k := WhileRestarting(r, loaded, c, order, i, polls);
    }
  }

  /** For a run that starts with tinylb up to date the two are the same. */
  lemma HoldsFromFile<K(!new)>(r: Rules<K>, holds: (Config, K) -> bool, c: Config, order: seq<K>, polls: set<nat>)
    ensures var t := Trace(r, c, order);
      HoldsAtRestarts(holds, c, c, t, polls) <==> FileHoldsAtRestarts(holds, c, t)
  {
    var t := Trace(r, c, order);
    hide Trace, LoadedAt;
    assert FileAt(c, t[..0]) == c by {
      assert t[..0] == [];
    }
    hide FileAt;
    forall i | 0 <= i < |t| && t[i].Restart?
      ensures LoadedAt(c, c, t[..i], polls) == FileAt(c, t[..i]) && LoadedAt(c, c, t[..i + 1], polls) == FileAt(c, t[..i])
    {
      var k := WhileRestarting(r, c, c, order, i, polls);
    }
    if FileHoldsAtRestarts(holds, c, t) {
      assert HoldsAtRestarts(holds, c, c, t, polls);
    }
  }

  /** The update that stops between writing the drain of its first target and signalling it: started with
      tinylb up to date, it leaves tinylb behind, and unless tinylb polls the file first, the next run restarts
      that target while tinylb still sends it traffic. */
  lemma StrandedDrain<K(!new)>(r: Rules<K>, c: Config, keys: seq<K>)
    requires Started(r, c, keys) && keys != [] && !r.drained(c, Order(r, c, keys)[0])
    ensures var x, s := Order(r, c, keys)[0], Reruns(r, Known(c, c), keys, [Attempt(1, {})]);
      && s.loaded == c && s.file == r.mark(c, x, true)
      && FullRun(r, s.file, keys) != [] && FullRun(r, s.file, keys)[0] == Restart(x)
      && !r.drained(s.loaded, x) && !LoadedDrainedAtRestarts(r, s.loaded, s.file, keys, {})
  {
    hide Lawful, AllPresent, RecoveryOrder, DrainedKeys, Started, Unique;
    StartedMeans(r, c, keys);
    var t, order := FullRun(r, c, keys), Order(r, c, keys);
    FirstWrite(r, c, order);
    OneAttempt(r, Known(c, c), keys, Attempt(1, {}));
    assert t[..1][..0] == [] && t[..1] == [t[0]];
    var f := r.mark(c, order[0], true);
    assert FileAt(c, t[..1]) == f && LoadedAt(c, c, t[..1], {}) == c;
    StrandedIsFirst(r, c, keys);
    hide FileAt, LoadedAt, Trace;
    StartedMeans(r, f, keys);
    FirstEffect(r, f, Order(r, f, keys));
    NotLoadedDrained(r, c, f, keys, {});
  }

  lemma OneAttempt<K(!new)>(r: Rules<K>, s: Known, keys: seq<K>, a: Attempt)
    ensures Reruns(r, s, keys, [a]) == Attempted(r, s, keys, a)
  {
    assert [a][..0] == [];
    hide Attempted;
  }

  lemma {:induction false} FirstWrite<K(!new)>(r: Rules<K>, c: Config, order: seq<K>)
    requires order != [] && !r.drained(c, order[0])
    ensures Trace(r, c, order) != [] && Trace(r, c, order)[0] == Write(r.mark(c, order[0], true))
  {
    var n := |order| - 1;
    TraceSnoc(r, c, order[..n], order[n]);
    assert order == order[..n] + [order[n]];
    if n > 0 {
      FirstWrite(r, c, order[..n]);
    } else {
      assert FileAfter(r, c, order[..0]) == c;
      assert StepTrace(r, c, order[0])[0] == Write(r.mark(c, order[0], true));
    }
  }

  lemma StrandedIsFirst<K(!new)>(r: Rules<K>, c: Config, keys: seq<K>)
    requires Started(r, c, keys) && keys != [] && !r.drained(c, Order(r, c, keys)[0])
    ensures var x := Order(r, c, keys)[0]; var f := r.mark(c, x, true);
      Order(r, f, keys) != [] && Order(r, f, keys)[0] == x && r.drained(f, x)
  {
    var d, order := DrainedKeys(r, c, keys), Order(r, c, keys);
    StartedMeans(r, c, keys);
    assert order[0] in keys;
    assert r.present(c, order[0]);
    hide Lawful, AllPresent, Trace, RecoveryOrder, Unique;
    DrainedStage(r, c, keys, order[0]);
    StageDone(d, order, 0);
    hide DrainedKeys;
    assert d - Elems(order[..0]) == d;
    StoppedComesFirst(keys, d, 0);
  }

  /** In a run every write is followed by its signal. */
  lemma WriteThenReload<K>(r: Rules<K>, c: Config, order: seq<K>, i: nat)
    requires i < |Trace(r, c, order)| && Trace(r, c, order)[i].Write?
    ensures i + 1 < |Trace(r, c, order)| && Trace(r, c, order)[i + 1].Reload?
  {
    var k, rest := SplitCut(r, c, order, i);
    var before := FileAfter(r, c, order[..k]);
    var t, step, done := Trace(r, c, order), StepTrace(r, before, order[k]), Trace(r, c, order[..k]);
    StepCuts(r, before, order[k]);
    hide StepTrace, Trace, DrainSteps, FileAfter;
    assert step[rest + 1].Reload?;
    PartialRun(r, c, order, k, rest + 2);
    assert t[i + 1] == t[..i + 2][i + 1] == (done + step[..rest + 2])[i + 1] == step[rest + 1];
  }

  /** If tinylb is up to date when a run starts, it only ever lacks the last write, before its signal. */
  lemma {:induction false} OneWriteBehind<K>(r: Rules<K>, c: Config, order: seq<K>, cut: nat)
    requires cut <= |Trace(r, c, order)|
    ensures var t := Trace(r, c, order);
      LoadedAt(c, c, t[..cut], {}) == FileAt(c, t[..if cut > 0 && t[cut - 1].Write? then cut - 1 else cut])
  {
    var t := Trace(r, c, order);
    hide Trace;
    if cut > 0 {
      var n := cut - 1;
      assert t[..cut][..n] == t[..n];
      OneWriteBehind(r, c, order, n);
      if n > 0 && t[n - 1].Write? {
        WriteThenReload(r, c, order, n - 1);
      }
    } else {
      assert t[..0] == [];
    }
  }

  /** The run stops after writing a drain and before its signal. */
  ghost predicate StopsBeforeSignal<K(!new)>(r: Rules<K>, c: Config, keys: seq<K>, cut: nat) {
    var t := FullRun(r, c, keys);
    0 < cut <= |t| && t[cut - 1].Write?
    && exists x :: x in keys && !r.drained(FileAt(c, t[..cut - 1]), x) && r.drained(FileAt(c, t[..cut]), x)
  }

  /** Exactly those stops make the next run unsafe: a run that starts with tinylb up to date and stops anywhere
      else leaves a next run that restarts nothing that tinylb sends traffic to. */
  lemma UnsafeExactlyBeforeSignal<K(!new)>(r: Rules<K>, c: Config, keys: seq<K>, cut: nat)
    requires Started(r, c, keys) && cut <= |FullRun(r, c, keys)|
    ensures var s := Attempted(r, Known(c, c), keys, Attempt(cut, {}));
      !LoadedDrainedAtRestarts(r, s.loaded, s.file, keys, {}) <==> StopsBeforeSignal(r, c, keys, cut)
  {
    hide LoadedDrainedAtRestarts, FileAt, LoadedAt, Trace, RecoveryOrder, DrainedKeys, Started, Lawful, AllPresent, Unique;
    StartedMeans(r, c, keys);
    var t, order := FullRun(r, c, keys), Order(r, c, keys);
    var f := FileAt(c, t[..cut]);
    var now := LoadedAt(c, c, t[..cut], {});
    OneWriteBehind(r, c, order, cut);
    DrainedTargetsBounded(r, c, keys, cut);
    LoadedDrainedExactly(r, now, f, keys, {});
    StartedMeans(r, f, keys);
    if cut > 0 && t[cut - 1].Write? {
      WriteStops(r, c, keys, cut);
    }
  }

  /** A run that gets through has signalled everything. */
  lemma StopsWithinRun<K(!new)>(r: Rules<K>, c: Config, keys: seq<K>, cut: nat)
    ensures StopsBeforeSignal(r, c, keys, cut) <==> StopsBeforeSignal(r, c, keys, Min(cut, |FullRun(r, c, keys)|))
  {
    var order := Order(r, c, keys);
    if order != [] {
      TraceLast(r, c, order);
    }
    hide Order, Trace, FileAt;
  }

  lemma FileWithin<K(!new)>(r: Rules<K>, c: Config, order: seq<K>, k: nat, rest: nat)
    requires k < |order| && rest <= |StepTrace(r, FileAfter(r, c, order[..k]), order[k])|
    ensures var n := |Trace(r, c, order[..k])| + rest;
      n <= |Trace(r, c, order)| && FileAt(c, Trace(r, c, order)[..n]) == FileInStep(r, FileAfter(r, c, order[..k]), order[k], rest)
  {
    hide FileAt, Trace, StepTrace, FileAfter, DrainSteps, FileInStep;
    PartOfRun(r, c, order, k, rest);
    StepCut(r, FileAfter(r, c, order[..k]), order[k], rest);
  }

  lemma WriteInStep<K>(r: Rules<K>, c: Config, k: K, rest: nat)
    requires rest < |StepTrace(r, c, k)| && StepTrace(r, c, k)[rest].Write?
    ensures var g, f := FileInStep(r, c, k, rest), FileInStep(r, c, k, rest + 1);
      if rest == 0 then !r.drained(c, k) && g == c && f == Drained(r, c, k) else f == r.mark(g, k, false)
  {
    StepCuts(r, c, k);
    hide StepTrace, FileAt;
  }

  /** A write drains the next target or undrains it. */
  lemma WriteAt<K(!new)>(r: Rules<K>, c: Config, order: seq<K>, i: nat) returns (k: nat, drains: bool)
    requires i < |Trace(r, c, order)| && Trace(r, c, order)[i].Write?
    ensures k < |order|
    ensures var before, x := FileAfter(r, c, order[..k]), order[k];
      var g, f := FileAt(c, Trace(r, c, order)[..i]), FileAt(c, Trace(r, c, order)[..i + 1]);
      if drains then !r.drained(before, x) && g == before && f == Drained(r, before, x)
      else f == r.mark(g, x, false)
  {
    hide *;
    var rest;
    k, rest := SplitCut(r, c, order, i);
    var before, x := FileAfter(r, c, order[..k]), order[k];
    WriteInStep(r, before, x, rest);
    FileWithin(r, c, order, k, rest);
    FileWithin(r, c, order, k, rest + 1);
    drains := rest == 0;
  }

  /** After a write tinylb, still at the file before it, is up to date for the next run exactly when the write
      drained nothing. */
  lemma WriteStops<K(!new)>(r: Rules<K>, c: Config, keys: seq<K>, cut: nat)
    requires Started(r, c, keys) && 0 < cut <= |FullRun(r, c, keys)| && FullRun(r, c, keys)[cut - 1].Write?
    ensures var t := FullRun(r, c, keys);
      var g, f := FileAt(c, t[..cut - 1]), FileAt(c, t[..cut]);
      UpToDate(r, g, f, keys, {}) <==> forall x :: x in keys && r.drained(f, x) ==> r.drained(g, x)
  {
    hide Lawful, AllPresent, FileAt, Trace, RecoveryOrder, Started, Unique, DrainedKeys, FileAfter, Drained;
    StartedMeans(r, c, keys);
    var t, order := FullRun(r, c, keys), Order(r, c, keys);
    var k, drains := WriteAt(r, c, order, cut - 1);
    var g, f := FileAt(c, t[..cut - 1]), FileAt(c, t[..cut]);
    DrainedTargetsBounded(r, c, keys, cut);
    StartedMeans(r, f, keys);
    if drains {
      WrittenIsFirst(r, c, keys, k);
    } else {
      UndrainedOnly(r, g, f, keys, order[k]);
    }
  }

  /** A target just drained in the file comes first in the order of the next run. */
  lemma WrittenIsFirst<K(!new)>(r: Rules<K>, c: Config, keys: seq<K>, k: nat)
    requires Started(r, c, keys) && k < |Order(r, c, keys)|
    ensures var x := Order(r, c, keys)[k]; var f := Drained(r, FileAfter(r, c, Order(r, c, keys)[..k]), x);
      x in keys && r.drained(f, x) && Order(r, f, keys) != [] && Order(r, f, keys)[0] == x
  {
    hide Lawful, AllPresent, Trace, RecoveryOrder, Unique, DrainedKeys, FileAfter, Drained;
    StartedMeans(r, c, keys);
    var d, order := DrainedKeys(r, c, keys), Order(r, c, keys);
    var before, x := FileAfter(r, c, order[..k]), order[k];
    assert x in order && forall y :: y in order[..k] ==> y in order;
    FileAfterStage(r, c, keys, order[..k]);
    DrainedStage(r, before, keys, x);
    DrainedIn(r, Drained(r, before, x), keys, x);
    StageDone(d, order, k);
    StoppedComesFirst(keys, d, k);
  }

  lemma UndrainedOnly<K(!new)>(r: Rules<K>, g: Config, f: Config, keys: seq<K>, x: K)
    requires Lawful(r) && f == r.mark(g, x, false)
    ensures forall y :: r.drained(f, y) ==> r.drained(g, y)
  {
    assert !r.drained(f, x);
    forall y | y != x
      ensures r.drained(f, y) == r.drained(g, y)
    {
    }
  }
}
