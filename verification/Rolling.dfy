/** The protocol both rolling update scripts follow (examples/rolling-update): drained targets first, then
    for each target drain, restart, wait, undrain. A script differs in what a target is and in how it
    reads and writes a drain flag. What it does to the world is a sequence of effects, and being aborted
    at any point leaves a prefix of that sequence. */
module Rolling {
  import opened Prelude
  import opened Registry

  type Config = seq<RouteConfig>

  datatype Effect<K> =
    | Write(config: Config)   // lb.toml
    | Reload                  // SIGHUP to tinylb
    | Restart(key: K)

  /** How a script sees its targets in a config. */
  datatype Rules<!K> = Rules(
    present: (Config, K) -> bool,
    drained: (Config, K) -> bool,
    mark: (Config, K, bool) -> Config)

  /** Marking a target sets its own flag and no other. */
  ghost predicate Lawful<K(!new)>(r: Rules<K>) {
    && (forall c: Config, k: K :: !r.drained(r.mark(c, k, false), k))
    && (forall c: Config, k: K :: r.present(c, k) ==> r.drained(r.mark(c, k, true), k))
    && (forall c: Config, k: K, l: K, d: bool :: k != l ==> r.drained(r.mark(c, k, d), l) == r.drained(c, l))
    && (forall c: Config, k: K, l: K, d: bool :: r.present(r.mark(c, k, d), l) == r.present(c, l))
  }

  // --------------------------------------------------------------- the order

  predicate Unique<K(==)>(s: seq<K>) { forall i, j :: 0 <= i < j < |s| ==> s[i] != s[j] }

  function Elems<K(!new)>(s: seq<K>): (r: set<K>)
    ensures forall x :: x in r <==> x in s
  {
    set x | x in s
  }

  /** The elements of s that are in the set, or those that are not, in their order. */
  function Members<K(==,!new)>(s: seq<K>, chosen: set<K>, inside: bool): seq<K> {
    if s == [] then []
    else
      var n := |s| - 1;
      Members(s[..n], chosen, inside) + if (s[n] in chosen) == inside then [s[n]] else []
  }

  /** build_restart_order: drained first, then active. */
  function RecoveryOrder<K(==,!new)>(keys: seq<K>, drained: set<K>): seq<K> {
    Members(keys, drained, true) + Members(keys, drained, false)
  }

  lemma MembersSnoc<K(!new)>(s: seq<K>, x: K, chosen: set<K>, inside: bool)
    ensures Members(s + [x], chosen, inside) == Members(s, chosen, inside) + if (x in chosen) == inside then [x] else []
  {
    assert (s + [x])[..|s|] == s;
  }

  lemma {:induction false} MembersIn<K(!new)>(s: seq<K>, chosen: set<K>, inside: bool)
    ensures forall x :: x in Members(s, chosen, inside) <==> x in s && (x in chosen) == inside
  {
    if s != [] {
      MembersIn(s[..|s| - 1], chosen, inside);
      assert s == s[..|s| - 1] + [s[|s| - 1]];
    }
  }

  lemma {:induction false} MembersUnique<K(!new)>(s: seq<K>, chosen: set<K>, inside: bool)
    requires Unique(s)
    ensures Unique(Members(s, chosen, inside))
  {
    if s != [] {
      MembersUnique(s[..|s| - 1], chosen, inside);
      MembersIn(s[..|s| - 1], chosen, inside);
      assert s[|s| - 1] !in s[..|s| - 1];
    }
  }

  lemma {:induction false} MembersSplit<K(!new)>(s: seq<K>, chosen: set<K>)
    ensures multiset(Members(s, chosen, true)) + multiset(Members(s, chosen, false)) == multiset(s)
  {
    if s != [] {
      var front, x := s[..|s| - 1], s[|s| - 1];
      MembersSplit(front, chosen);
      MembersSnoc(front, x, chosen, true);
      MembersSnoc(front, x, chosen, false);
      assert s == front + [x];
      hide Members;
    }
  }

  /** The first places are those of the drained targets. */
  lemma OrderPlaces<K(!new)>(keys: seq<K>, drained: set<K>, k: nat)
    requires k < |RecoveryOrder(keys, drained)|
    ensures RecoveryOrder(keys, drained)[k] in drained <==> k < |Members(keys, drained, true)|
  {
    var first, second := Members(keys, drained, true), Members(keys, drained, false);
    var x := (first + second)[k];
    MembersIn(keys, drained, true);
    MembersIn(keys, drained, false);
    if k < |first| {
      assert x == first[k] && first[k] in first;
    } else {
      assert x == second[k - |first|] && second[k - |first|] in second;
    }
    hide Members;
  }

  lemma OrderUnique<K(!new)>(keys: seq<K>, drained: set<K>)
    requires Unique(keys)
    ensures Unique(RecoveryOrder(keys, drained))
  {
    var first, second := Members(keys, drained, true), Members(keys, drained, false);
    MembersUnique(keys, drained, true);
    MembersUnique(keys, drained, false);
    hide Members;
    forall i, j | 0 <= i < j < |first + second|
      ensures (first + second)[i] != (first + second)[j]
    {
      OrderPlaces(keys, drained, i);
      OrderPlaces(keys, drained, j);
    }
  }

  /** Each target has exactly one place in the order. */
  lemma OrderIsPermutation<K(!new)>(keys: seq<K>, drained: set<K>)
    ensures multiset(RecoveryOrder(keys, drained)) == multiset(keys)
    ensures |RecoveryOrder(keys, drained)| == |keys|
    ensures forall x :: x in RecoveryOrder(keys, drained) <==> x in keys
  {
    MembersSplit(keys, drained);
    MembersIn(keys, drained, true);
    MembersIn(keys, drained, false);
    hide Members;
    assert |multiset(RecoveryOrder(keys, drained))| == |multiset(keys)|;
  }

  // ----------------------------------------------- which targets are drained when

  /** After k targets are done: the rest as before; while the next is worked on it is drained as well. */
  function Stage<K(!new)>(drained: set<K>, order: seq<K>, k: nat, working: bool): set<K>
    requires k <= |order| && (working ==> k < |order|)
  {
    drained - Elems(order[..k]) + (if working then {order[k]} else {})
  }

  lemma {:induction false} SubsetSize<K(!new)>(a: set<K>, b: set<K>)
    requires a <= b
    ensures |a| <= |b|
    decreases |a|
  {
    if a != {} {
      var x :| x in a;
      SubsetSize(a - {x}, b - {x});
    }
  }

  /** Active targets come up only when no other target is drained any more. */
  lemma StageAlone<K(!new)>(keys: seq<K>, drained: set<K>, k: nat)
    requires k < |RecoveryOrder(keys, drained)|
    requires RecoveryOrder(keys, drained)[k] !in drained && forall x :: x in drained ==> x in keys
    ensures var order := RecoveryOrder(keys, drained); Stage(drained, order, k, true) == {order[k]}
  {
    var first, order := Members(keys, drained, true), RecoveryOrder(keys, drained);
    OrderPlaces(keys, drained, k);
    MembersIn(keys, drained, true);
    forall x | x in drained
      ensures x in order[..k]
    {
      assert x in first && first == order[..|first|];
      var i :| 0 <= i < |first| && first[i] == x;
      assert order[..k][i] == x;
    }
  }

  lemma StageBounded<K(!new)>(keys: seq<K>, drained: set<K>, k: nat, working: bool)
    requires forall x :: x in drained ==> x in keys
    requires k <= |RecoveryOrder(keys, drained)| && (working ==> k < |RecoveryOrder(keys, drained)|)
    ensures |Stage(drained, RecoveryOrder(keys, drained), k, working)| <= Max(|drained|, 1)
  {
    var order := RecoveryOrder(keys, drained);
    if working && order[k] !in drained {
      StageAlone(keys, drained, k);
    } else {
      SubsetSize(Stage(drained, order, k, working), drained);
    }
  }

  lemma {:induction false} MembersSame<K(!new)>(s: seq<K>, a: set<K>, b: set<K>)
    requires forall x :: x in s ==> (x in a <==> x in b)
    ensures Members(s, a, true) == Members(s, b, true)
  {
    if s != [] {
      var front := s[..|s| - 1];
      assert forall x :: x in front ==> x in s;
      MembersSame(front, a, b);
      assert s[|s| - 1] in s;
    }
  }

  lemma {:induction false} MembersDropOne<K(!new)>(s: seq<K>, chosen: set<K>)
    requires Unique(s) && Members(s, chosen, true) != []
    ensures var m := Members(s, chosen, true); Members(s, chosen - {m[0]}, true) == m[1..]
  {
    if s != [] {
      var front, x := s[..|s| - 1], s[|s| - 1];
      var m := Members(s, chosen, true);
      assert s == front + [x] && x !in front;
      MembersSnoc(front, x, chosen, true);
      MembersSnoc(front, x, chosen - {m[0]}, true);
      MembersIn(front, chosen, true);
      hide Members;
      if Members(front, chosen, true) != [] {
        MembersDropOne(front, chosen);
      } else {
        MembersSame(front, chosen, chosen - {m[0]});
      }
    }
  }

  /** Taking the first k members out of the set takes them out of the list. */
  lemma {:induction false} MembersDrop<K(!new)>(s: seq<K>, chosen: set<K>, k: nat)
    requires Unique(s) && k <= |Members(s, chosen, true)|
    ensures var m := Members(s, chosen, true);
      Members(s, chosen - Elems(m[..k]), true) == m[k..]
  {
    hide Members, Unique;
    var m := Members(s, chosen, true);
    if k == 0 {
      assert chosen - Elems(m[..0]) == chosen;
    } else {
      MembersDrop(s, chosen, k - 1);
      var left := chosen - Elems(m[..k - 1]);
      MembersDropOne(s, left);
      assert m[..k] == m[..k - 1] + [m[k - 1]];
      assert left - {m[k - 1]} == chosen - Elems(m[..k]);
    }
  }

  lemma {:induction false} MembersNone<K(!new)>(s: seq<K>, x: K)
    requires x !in s
    ensures Members(s, {x}, true) == []
  {
    if s != [] {
      MembersNone(s[..|s| - 1], x);
    }
  }

  lemma {:induction false} MembersSingle<K(!new)>(s: seq<K>, x: K)
    requires Unique(s) && x in s
    ensures Members(s, {x}, true) == [x]
  {
    var front := s[..|s| - 1];
    if s[|s| - 1] == x {
      MembersNone(front, x);
    } else {
      MembersSingle(front, x);
    }
  }

  /** If the run stops while a target is worked on, the next run starts with that target. */
  lemma StoppedComesFirst<K(!new)>(keys: seq<K>, drained: set<K>, k: nat)
    requires Unique(keys) && forall x :: x in drained ==> x in keys
    requires k < |RecoveryOrder(keys, drained)|
    ensures var order := RecoveryOrder(keys, drained);
      var again := RecoveryOrder(keys, Stage(drained, order, k, true));
      |again| > 0 && again[0] == order[k]
  {
    var first, order := Members(keys, drained, true), RecoveryOrder(keys, drained);
    OrderIsPermutation(keys, drained);
    if order[k] in drained {
      OrderPlaces(keys, drained, k);
      MembersUnique(keys, drained, true);
      MembersDrop(keys, drained, k);
      assert order[..k] == first[..k];
      assert Stage(drained, order, k, true) == drained - Elems(first[..k]);
    } else {
      StageAlone(keys, drained, k);
      assert order[k] in keys;
      MembersSingle(keys, order[k]);
    }
  }

  // ---------------------------------------- which drained targets are still to come

  /** x has an earlier place than y. */
  ghost predicate Before<K(!new)>(s: seq<K>, x: K, y: K) { exists i, j :: 0 <= i < j < |s| && s[i] == x && s[j] == y }

  lemma {:induction false} MembersInOrder<K(!new)>(s: seq<K>, chosen: set<K>, inside: bool, i: nat, j: nat)
    requires i < j < |Members(s, chosen, inside)|
    ensures var m := Members(s, chosen, inside); Before(s, m[i], m[j])
  {
    var n, m := |s| - 1, Members(s, chosen, inside);
    var front := Members(s[..n], chosen, inside);
    MembersIn(s[..n], chosen, inside);
    hide Members;
    if j < |front| {
      MembersInOrder(s[..n], chosen, inside, i, j);
      var a, b :| 0 <= a < b < n && s[..n][a] == m[i] && s[..n][b] == m[j];
      assert s[a] == m[i] && s[b] == m[j];
    } else {
      assert m[i] == front[i] && front[i] in s[..n];
      var a :| 0 <= a < n && s[..n][a] == m[i];
      assert s[a] == m[i] && s[n] == m[j];
    }
  }

  /** Drained targets keep their order among themselves, and so do the active ones. */
  lemma OrderIsStable<K(!new)>(keys: seq<K>, drained: set<K>, i: nat, j: nat)
    requires i < j < |RecoveryOrder(keys, drained)|
    ensures var order := RecoveryOrder(keys, drained);
      (order[i] in drained <==> order[j] in drained) ==> Before(keys, order[i], order[j])
  {
    var first, order := Members(keys, drained, true), RecoveryOrder(keys, drained);
    OrderPlaces(keys, drained, i);
    OrderPlaces(keys, drained, j);
    if order[i] in drained && order[j] in drained {
      MembersInOrder(keys, drained, true, i, j);
    } else if order[i] !in drained && order[j] !in drained {
      MembersInOrder(keys, drained, false, i - |first|, j - |first|);
    }
  }

  /** When a target's turn comes, the drained targets that had no turn yet are those after it, provided it was
      drained itself. */
  lemma DrainedToCome<K(!new)>(keys: seq<K>, drained: set<K>, k: nat, y: K)
    requires Unique(keys) && forall x :: x in drained ==> x in keys
    requires k < |RecoveryOrder(keys, drained)| && y in drained && y != RecoveryOrder(keys, drained)[k]
    ensures var order := RecoveryOrder(keys, drained);
      y !in order[..k] <==> order[k] in drained && Before(keys, order[k], y)
  {
    var first, order := Members(keys, drained, true), RecoveryOrder(keys, drained);
    OrderPlaces(keys, drained, k);
    OrderUnique(keys, drained);
    MembersIn(keys, drained, true);
    var p :| 0 <= p < |first| && first[p] == y;
    assert order[p] == y;
    hide Members, RecoveryOrder;
    if p < k {
      assert order[..k][p] == y;
      if order[k] in drained {
        MembersInOrder(keys, drained, true, p, k);
        NotBothBefore(keys, y, order[k]);
      }
    } else {
      MembersInOrder(keys, drained, true, k, p);
    }
  }

  lemma NotBothBefore<K(!new)>(s: seq<K>, x: K, y: K)
    requires Unique(s) && Before(s, x, y)
    ensures !Before(s, y, x)
  {
  }
}
