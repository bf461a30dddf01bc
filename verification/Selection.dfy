/** Least-connections selection of src/backends.rs, on snapshots of the backends. */
module Selection {
  import opened Prelude

  const USIZE_MAX: nat := 0xFFFF_FFFF_FFFF_FFFF

  type Usize = n: nat | n <= USIZE_MAX

  /** fetch_add(1) and fetch_sub(1), which wrap. */
  function Up(n: Usize): Usize { if n == USIZE_MAX then 0 else n + 1 }

  function Down(n: Usize): Usize { if n == 0 then USIZE_MAX else n - 1 }

  /** The fields of one backend at one moment. */
  datatype View = View(url: string, max: Usize, drain: bool, healthy: bool, active: Usize, errors: nat)

  /** A new connection may go here. */
  predicate Eligible(v: View) { !v.drain && v.healthy && v.active < v.max }

  /** i is the first of the eligible backends with the fewest connections. */
  predicate LeastLoaded(views: seq<View>, i: nat) {
    && i < |views| && Eligible(views[i])
    && forall j :: 0 <= j < |views| && Eligible(views[j]) ==>
         views[i].active <= views[j].active && (j < i ==> views[i].active < views[j].active)
  }

  predicate NoneEligible(views: seq<View>) { forall j :: 0 <= j < |views| ==> !Eligible(views[j]) }

  function Select(views: seq<View>): (r: Option<nat>)
    ensures if r.Some? then LeastLoaded(views, r.value) else NoneEligible(views)
  {
    if views == [] then None
    else
      var n := |views| - 1;
      var r := Select(views[..n]);
      if Eligible(views[n]) && (r.None? || views[n].active < views[r.value].active) then Some(n) else r
  }

  /** The selection is determined: the first least loaded backend, or none. */
  lemma SelectIsLeastLoaded(views: seq<View>, i: nat)
    ensures Select(views) == Some(i) <==> LeastLoaded(views, i)
    ensures Select(views) == None <==> NoneEligible(views)
  {
  }

  /** In the fields of the backends: one is selected if one is not draining, healthy and below its cap, and the one
      selected is such a one, with the fewest connections and the first of those. */
  lemma SelectionInFields(views: seq<View>)
    ensures Select(views).Some?
      <==> exists i :: 0 <= i < |views| && !views[i].drain && views[i].healthy && views[i].active < views[i].max
    ensures match Select(views)
      case None => true
      case Some(k) =>
        && k < |views| && !views[k].drain && views[k].healthy && views[k].active < views[k].max
        && forall i :: 0 <= i < |views| && !views[i].drain && views[i].healthy && views[i].active < views[i].max ==>
             views[k].active <= views[i].active && (i < k ==> views[k].active < views[i].active)
  {
    var r := Select(views);
    assert if r.Some? then LeastLoaded(views, r.value) else NoneEligible(views);
    hide Select;
    if r.None? {
      assert forall i :: 0 <= i < |views| ==> !Eligible(views[i]);
    } else {
      assert Eligible(views[r.value]);
      assert forall i :: 0 <= i < |views| && !views[i].drain && views[i].healthy && views[i].active < views[i].max ==> Eligible(views[i]);
    }
  }

  // ------------------------------------------------ sequential arrivals only

  /** One request arrives and stays: the selected backend gets one more connection. */
  function Arrive(views: seq<View>): (r: seq<View>)
    ensures |r| == |views|
  {
    var i := Select(views);
    if i.None? then views else views[i.value := views[i.value].(active := views[i.value].active + 1)]
  }

  function Arrivals(views: seq<View>, k: nat): (r: seq<View>)
    ensures |r| == |views|
  {
    if k == 0 then views else Arrive(Arrivals(views, k - 1))
  }

  /** How many of the first k requests were given a backend. */
  function Admitted(views: seq<View>, k: nat): nat {
    if k == 0 then 0 else Admitted(views, k - 1) + Bit(Select(Arrivals(views, k - 1)).Some?)
  }

  /** Flags allow it, whatever the count. */
  predicate InRotation(v: View) { !v.drain && v.healthy }

  /** The connections that fit into one backend. */
  function Capacity(v: View): nat { if InRotation(v) then v.max else 0 }

  function TotalCapacity(views: seq<View>): nat {
    if views == [] then 0 else TotalCapacity(views[..|views| - 1]) + Capacity(views[|views| - 1])
  }

  function TotalActive(views: seq<View>): nat {
    if views == [] then 0 else TotalActive(views[..|views| - 1]) + views[|views| - 1].active
  }

  predicate AllIdle(views: seq<View>) { forall i :: 0 <= i < |views| ==> views[i].active == 0 }

  /** No backend in rotation is more than one ahead of a backend in rotation that has room. */
  predicate Balanced(views: seq<View>) {
    forall i, j :: 0 <= i < |views| && 0 <= j < |views| && InRotation(views[i]) && Eligible(views[j])
      ==> views[i].active <= views[j].active + 1
  }

  predicate WithinCapacity(views: seq<View>) { forall i :: 0 <= i < |views| ==> views[i].active <= Capacity(views[i]) }

  predicate SameSettings(views: seq<View>, others: seq<View>) {
    |views| == |others| && forall i :: 0 <= i < |views| ==> views[i].(active := 0) == others[i].(active := 0)
  }

  lemma {:induction false} ArrivalsKeepBalance(views: seq<View>, k: nat)
    requires AllIdle(views)
    ensures var vs := Arrivals(views, k);
      Balanced(vs) && WithinCapacity(vs) && SameSettings(views, vs)
  {
    if k > 0 {
      ArrivalsKeepBalance(views, k - 1);
      ArriveKeepsBalance(views, Arrivals(views, k - 1));
      hide Arrive, Balanced, WithinCapacity, SameSettings;
    }
  }

  lemma ArriveKeepsBalance(views: seq<View>, before: seq<View>)
    requires Balanced(before) && WithinCapacity(before) && SameSettings(views, before)
    ensures Balanced(Arrive(before)) && WithinCapacity(Arrive(before)) && SameSettings(views, Arrive(before))
  {
    var i := Select(before);
    assert i.Some? ==> LeastLoaded(before, i.value);
    hide Select;
  }

  lemma {:induction false} TotalsUpdate(views: seq<View>, i: nat, v: View)
    requires i < |views| && v == views[i].(active := v.active)
    ensures TotalActive(views[i := v]) + views[i].active == TotalActive(views) + v.active
    ensures TotalCapacity(views[i := v]) == TotalCapacity(views)
  {
    var n := |views| - 1;
    if i < n {
      TotalsUpdate(views[..n], i, v);
      assert views[i := v][..n] == views[..n][i := v];
    } else {
      assert views[i := v][..n] == views[..n];
    }
  }

  lemma {:induction false} TotalWithinCapacity(views: seq<View>)
    requires WithinCapacity(views)
    ensures TotalActive(views) <= TotalCapacity(views)
    ensures NoneEligible(views) <==> TotalActive(views) == TotalCapacity(views)
  {
    if views != [] {
      var n := |views| - 1;
      TotalWithinCapacity(views[..n]);
      assert NoneEligible(views) <==> NoneEligible(views[..n]) && !Eligible(views[n]);
    }
  }

  lemma {:induction false} IdleTotal(views: seq<View>)
    requires AllIdle(views)
    ensures TotalActive(views) == 0
  {
    if views != [] {
      IdleTotal(views[..|views| - 1]);
    }
  }

  lemma {:induction false} AdmittedAreActive(views: seq<View>, k: nat)
    requires AllIdle(views)
    ensures TotalActive(Arrivals(views, k)) == Admitted(views, k) == Min(k, TotalCapacity(views))
    ensures TotalCapacity(Arrivals(views, k)) == TotalCapacity(views)
  {
    if k == 0 {
      IdleTotal(views);
    } else {
      AdmittedAreActive(views, k - 1);
      ArrivalsKeepBalance(views, k - 1);
      ArriveAdmits(Arrivals(views, k - 1));
      hide Arrive, Select, TotalCapacity, TotalActive, Balanced, WithinCapacity, SameSettings;
    }
  }

  /** One arrival is admitted exactly when there is room. */
  lemma ArriveAdmits(before: seq<View>)
    requires WithinCapacity(before)
    ensures TotalActive(Arrive(before)) == TotalActive(before) + Bit(Select(before).Some?)
    ensures Select(before).Some? <==> TotalActive(before) < TotalCapacity(before)
    ensures TotalCapacity(Arrive(before)) == TotalCapacity(before)
  {
    TotalWithinCapacity(before);
    var i := Select(before);
    if i.Some? {
      TotalsUpdate(before, i.value, before[i.value].(active := before[i.value].active + 1));
    }
    hide TotalActive, TotalCapacity, WithinCapacity;
  }

  /** With sequential arrivals from idle backends: loads stay within one of each other wherever there is
      room, caps are respected, and of k requests exactly min(k, total capacity) are admitted. */
  lemma SequentialArrivals(views: seq<View>, k: nat)
    requires AllIdle(views)
    ensures var vs := Arrivals(views, k);
      && Balanced(vs)
      && (forall i :: 0 <= i < |vs| ==> vs[i].active <= Capacity(views[i]))
      && Admitted(views, k) == Min(k, TotalCapacity(views))
  {
    ArrivalsKeepBalance(views, k);
    AdmittedAreActive(views, k);
  }
}
