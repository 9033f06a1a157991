/**
  Readiness from any starting statuses: which sets of agents reconciling can
  come to rest in, and when that is the least fixpoint whatever the order.
 */
module ReadinessRecovery {
  import opened Api
  import opened Collections
  import opened Readiness

  // ---------------------------------------------------------------- what can come up, what can stay up

  ghost predicate InEveryClosedAbove(specs: Specs, able: set<Key>, start: set<Key>, k: Key) {
    forall s: set<Key> {:trigger SupportClosed(specs, able, s)} :: start <= s && SupportClosed(specs, able, s) ==> k in s
  }

  /** Everything that can ever come up: the least set that holds the start and is closed under the rule. */
  ghost function Closure(specs: Specs, able: set<Key>, start: set<Key>): set<Key> {
    set k | k in specs.Keys + start && InEveryClosedAbove(specs, able, start, k)
  }

  lemma ClosureIsBelow(specs: Specs, able: set<Key>, start: set<Key>, s: set<Key>)
    requires start <= s && SupportClosed(specs, able, s)
    ensures Closure(specs, able, start) <= s
  {
  }

  lemma ClosureIsClosed(specs: Specs, able: set<Key>, start: set<Key>)
    ensures start <= Closure(specs, able, start)
    ensures SupportClosed(specs, able, Closure(specs, able, start))
  {
    forall k | Supported(specs, able, Closure(specs, able, start), k)
      ensures InEveryClosedAbove(specs, able, start, k)
    {
      forall s: set<Key> | start <= s && SupportClosed(specs, able, s)
        ensures k in s
      {
        ClosureIsBelow(specs, able, start, s);
        SupportGrows(specs, able, Closure(specs, able, start), s, k);
      }
    }
  }

  /** What keeps itself up: the greatest subset all of whose agents it supports. */
  ghost function Kept(specs: Specs, able: set<Key>, up: set<Key>): set<Key> {
    set k | k in up && exists s: set<Key> :: s <= up && Consistent(specs, able, s) && k in s
  }

  lemma KeptIsConsistent(specs: Specs, able: set<Key>, up: set<Key>)
    ensures Consistent(specs, able, Kept(specs, able, up))
  {
    forall k | k in Kept(specs, able, up)
      ensures Supported(specs, able, Kept(specs, able, up), k)
    {
      var s: set<Key> :| s <= up && Consistent(specs, able, s) && k in s;
      assert Supported(specs, able, s, k);
      SupportGrows(specs, able, s, Kept(specs, able, up), k);
    }
  }

  lemma KeptIsStable(specs: Specs, able: set<Key>, up: set<Key>)
    requires SupportClosed(specs, able, up)
    ensures Stable(specs, able, Kept(specs, able, up))
  {
    var kept := Kept(specs, able, up);
    KeptIsConsistent(specs, able, up);
    forall k
      ensures k in kept <==> Supported(specs, able, kept, k)
    {
      if k in kept {
        assert Supported(specs, able, kept, k);
      } else if Supported(specs, able, kept, k) {
        SupportGrows(specs, able, kept, up, k);
        SettleKeepsConsistent(specs, able, kept, k);
      }
    }
    StableIffFixpoint(specs, able, kept);
  }

  /** The most that can be up when reconciling comes to rest. */
  ghost function Remains(specs: Specs, able: set<Key>, start: set<Key>): set<Key> {
    Kept(specs, able, Closure(specs, able, start))
  }

  // ---------------------------------------------------------------- bounds on every order

  lemma {:induction false} SettleAllIsMonotone(specs: Specs, able: set<Key>, up: set<Key>, up': set<Key>, ks: seq<Key>)
    requires up <= up'
    ensures SettleAll(specs, able, up, ks) <= SettleAll(specs, able, up', ks)
    decreases |ks|
  {
    if ks != [] {
      if Supported(specs, able, up, ks[0]) {
        SupportGrows(specs, able, up, up', ks[0]);
      }
      SettleAllIsMonotone(specs, able, Settle(specs, able, up, ks[0]), Settle(specs, able, up', ks[0]), ks[1..]);
    }
  }

  lemma SettleKeepsClosed(specs: Specs, able: set<Key>, up: set<Key>, k: Key)
    requires SupportClosed(specs, able, up)
    ensures Settle(specs, able, up, k) <= up
    ensures SupportClosed(specs, able, Settle(specs, able, up, k))
  {
    var up' := Settle(specs, able, up, k);
    forall j | Supported(specs, able, up', j)
      ensures j in up'
    {
      SupportGrows(specs, able, up', up, j);
    }
  }

  /** From a closed set no agent ever comes up, whatever the order. */
  lemma {:induction false} NoneComesUp(specs: Specs, able: set<Key>, up: set<Key>, ks: seq<Key>)
    requires SupportClosed(specs, able, up)
    ensures SettleAll(specs, able, up, ks) <= up
    ensures SupportClosed(specs, able, SettleAll(specs, able, up, ks))
    decreases |ks|
  {
    if ks != [] {
      SettleKeepsClosed(specs, able, up, ks[0]);
      NoneComesUp(specs, able, Settle(specs, able, up, ks[0]), ks[1..]);
    }
  }

  /** Wherever reconciling comes to rest lies between the least fixpoint and what remains. */
  lemma RestIsBetween(specs: Specs, able: set<Key>, start: set<Key>, ks: seq<Key>)
    requires Stable(specs, able, SettleAll(specs, able, start, ks))
    ensures Least(specs, able) <= SettleAll(specs, able, start, ks) <= Remains(specs, able, start)
  {
    var up, closure := SettleAll(specs, able, start, ks), Closure(specs, able, start);
    ClosureIsClosed(specs, able, start);
    SettleAllIsMonotone(specs, able, start, closure, ks);
    NoneComesUp(specs, able, closure, ks);
    StableIsAboveLeast(specs, able, up);
    StableIffFixpoint(specs, able, up);
    assert Consistent(specs, able, up) && up <= closure;
  }

  // ---------------------------------------------------------------- what remains is reached

  lemma {:induction false} Climb(specs: Specs, able: set<Key>, start: set<Key>, up: set<Key>) returns (ks: seq<Key>)
    requires start <= up <= Closure(specs, able, start)
    ensures SettleAll(specs, able, up, ks) == Closure(specs, able, start)
    decreases Closure(specs, able, start) - up
  {
    var closure := Closure(specs, able, start);
    if k :| Supported(specs, able, up, k) && k !in up {
      ClosureIsClosed(specs, able, start);
      SupportGrows(specs, able, up, closure, k);
      var rest := Climb(specs, able, start, up + {k});
      ks := [k] + rest;
    } else {
      assert SupportClosed(specs, able, up);
      ClosureIsBelow(specs, able, start, up);
      ks := [];
    }
  }

  lemma KeptWithout(specs: Specs, able: set<Key>, up: set<Key>, k: Key)
    requires !Supported(specs, able, up, k)
    ensures Kept(specs, able, up - {k}) == Kept(specs, able, up)
  {
    forall j | j in Kept(specs, able, up)
      ensures j in Kept(specs, able, up - {k})
    {
      var s: set<Key> :| s <= up && Consistent(specs, able, s) && j in s;
      if k in s {
        SupportGrows(specs, able, s, up, k);
      }
      assert s <= up - {k};
    }
    forall j | j in Kept(specs, able, up - {k})
      ensures j in Kept(specs, able, up)
    {
      var s: set<Key> :| s <= up - {k} && Consistent(specs, able, s) && j in s;
      assert s <= up;
    }
  }

  lemma {:induction false} Descend(specs: Specs, able: set<Key>, up: set<Key>) returns (ks: seq<Key>)
    requires SupportClosed(specs, able, up)
    ensures SettleAll(specs, able, up, ks) == Kept(specs, able, up)
    decreases up
  {
    if k :| k in up && !Supported(specs, able, up, k) {
      SettleKeepsClosed(specs, able, up, k);
      KeptWithout(specs, able, up, k);
      var rest := Descend(specs, able, up - {k});
      ks := [k] + rest;
    } else {
      assert Consistent(specs, able, up);
      ks := [];
    }
  }

  /** Some order of reconciles comes to rest with all of it up. */
  lemma RemainsIsReached(specs: Specs, able: set<Key>, start: set<Key>) returns (ks: seq<Key>)
    ensures SettleAll(specs, able, start, ks) == Remains(specs, able, start)
    ensures Stable(specs, able, Remains(specs, able, start))
  {
    ClosureIsClosed(specs, able, start);
    var climb := Climb(specs, able, start, start);
    var descend := Descend(specs, able, Closure(specs, able, start));
    ks := climb + descend;
    SettleAllConcat(specs, able, start, climb, descend);
    KeptIsStable(specs, able, Closure(specs, able, start));
  }

  // ---------------------------------------------------------------- rounds

  lemma {:induction false} DownWhenReconciled(specs: Specs, able: set<Key>, up: set<Key>, ks: seq<Key>, k: Key)
    requires SupportClosed(specs, able, up) && k in ks && !Supported(specs, able, up, k)
    ensures k !in SettleAll(specs, able, up, ks)
    decreases |ks|
  {
    var up' := Settle(specs, able, up, ks[0]);
    SettleKeepsClosed(specs, able, up, ks[0]);
    if ks[0] == k {
      NoneComesUp(specs, able, up', ks[1..]);
    } else {
      if Supported(specs, able, up', k) {
        SupportGrows(specs, able, up', up, k);
      }
      DownWhenReconciled(specs, able, up', ks[1..], k);
    }
  }

  /** From a closed set a round takes one more agent down, unless nothing can change any more. */
  lemma RoundTakesDown(specs: Specs, able: set<Key>, up: set<Key>, round: seq<Key>)
    requires SupportClosed(specs, able, up) && up <= specs.Keys && IsRound(specs, round)
    ensures Stable(specs, able, up) || |SettleAll(specs, able, up, round)| < |up|
  {
    if !Stable(specs, able, up) {
      StableIffFixpoint(specs, able, up);
      var k :| !(k in up <==> Supported(specs, able, up, k));
      assert k in up && k in specs;
      DownWhenReconciled(specs, able, up, round, k);
      NoneComesUp(specs, able, up, round);
      var up' := SettleAll(specs, able, up, round);
      SubsetSize(up' + {k}, up);
    }
  }

  ghost predicate AreRounds(specs: Specs, rounds: seq<seq<Key>>) {
    forall r <- rounds :: IsRound(specs, r)
  }

  lemma {:induction false} RoundsGoDown(specs: Specs, able: set<Key>, up: set<Key>, rounds: seq<seq<Key>>)
    requires SupportClosed(specs, able, up) && up <= specs.Keys && AreRounds(specs, rounds)
    requires |rounds| >= |up|
    ensures Stable(specs, able, SettleAll(specs, able, up, Flatten(rounds)))
    decreases |rounds|
  {
    if Stable(specs, able, up) {
      StableStays(specs, able, up, Flatten(rounds));
    } else if rounds == [] {
      StableIffFixpoint(specs, able, up);
    } else {
      var up' := SettleAll(specs, able, up, rounds[0]);
      RoundTakesDown(specs, able, up, rounds[0]);
      NoneComesUp(specs, able, up, rounds[0]);
      RoundsGoDown(specs, able, up', rounds[1..]);
      SettleAllConcat(specs, able, up, rounds[0], Flatten(rounds[1..]));
    }
  }

  /** As many rounds as agents leave between the least fixpoint and what remains, from any start. */
  lemma RoundsEndBetween(specs: Specs, able: set<Key>, start: set<Key>, rounds: seq<seq<Key>>)
    requires start <= specs.Keys && AreRounds(specs, rounds) && |rounds| >= |specs|
    ensures Least(specs, able) <= SettleAll(specs, able, start, Flatten(rounds)) <= Remains(specs, able, start)
  {
    var closure := Closure(specs, able, start);
    ClosureIsClosed(specs, able, start);
    SubsetSize(closure, specs.Keys);
    assert |specs.Keys| == |specs|;
    RoundsReachLeast(specs, able, rounds);
    SettleAllIsMonotone(specs, able, {}, start, Flatten(rounds));
    SettleAllIsMonotone(specs, able, start, closure, Flatten(rounds));
    RoundsGoDown(specs, able, closure, rounds);
    var top := SettleAll(specs, able, closure, Flatten(rounds));
    NoneComesUp(specs, able, closure, Flatten(rounds));
    StableIffFixpoint(specs, able, top);
    assert Consistent(specs, able, top) && top <= closure;
  }

  // ---------------------------------------------------------------- the exact condition

  /** Wherever reconciling comes to rest, in whatever order, it is the least fixpoint. */
  ghost predicate AlwaysRestsAtLeast(specs: Specs, able: set<Key>, start: set<Key>) {
    forall ks :: Stable(specs, able, SettleAll(specs, able, start, ks)) ==> SettleAll(specs, able, start, ks) == Least(specs, able)
  }

  /** As many rounds as agents, each in its own order, end in the least fixpoint. */
  ghost predicate RoundsAlwaysReachLeast(specs: Specs, able: set<Key>, start: set<Key>) {
    forall rounds | |rounds| >= |specs| && AreRounds(specs, rounds) ::
      SettleAll(specs, able, start, Flatten(rounds)) == Least(specs, able)
  }

  /** A round that begins with the given reconciles. */
  lemma RoundThatBegins(specs: Specs, ks: seq<Key>) returns (round: seq<Key>, all: seq<Key>)
    ensures IsRound(specs, round) && round == ks + all
  {
    all := SomeOrder(specs.Keys);
    round := ks + all;
  }

  /**
    Recovery.  From any starting statuses: reconciling always ends in the
    least fixpoint, wherever it comes to rest and after as many rounds as
    agents, exactly when the agents that can remain up form no cycle.
   */
  lemma RecoversIff(specs: Specs, able: set<Key>, start: set<Key>)
    requires start <= specs.Keys
    ensures AlwaysRestsAtLeast(specs, able, start) <==> !HasCycle(specs, Remains(specs, able, start))
    ensures RoundsAlwaysReachLeast(specs, able, start) <==> !HasCycle(specs, Remains(specs, able, start))
  {
    var least, most := Least(specs, able), Remains(specs, able, start);
    var ks := RemainsIsReached(specs, able, start);
    StableIsLeastIffNoCycleIsUp(specs, able, most);
    if most == least {
      forall ks | Stable(specs, able, SettleAll(specs, able, start, ks))
        ensures SettleAll(specs, able, start, ks) == least
      {
        RestIsBetween(specs, able, start, ks);
      }
      forall rounds | |rounds| >= |specs| && AreRounds(specs, rounds)
        ensures SettleAll(specs, able, start, Flatten(rounds)) == least
      {
        RoundsEndBetween(specs, able, start, rounds);
      }
    } else {
      assert Stable(specs, able, SettleAll(specs, able, start, ks));
      var rounds := RoundsThatKeep(specs, able, start, ks);
    }
  }

  /** What remains is also reached by as many rounds as wanted. */
  lemma RoundsThatKeep(specs: Specs, able: set<Key>, start: set<Key>, ks: seq<Key>) returns (rounds: seq<seq<Key>>)
    requires Stable(specs, able, SettleAll(specs, able, start, ks))
    ensures |rounds| >= |specs| && AreRounds(specs, rounds)
    ensures SettleAll(specs, able, start, Flatten(rounds)) == SettleAll(specs, able, start, ks)
  {
    var round, all := RoundThatBegins(specs, ks);
    var more := seq(|specs|, _ => round);
    rounds := [round] + more;
    assert Flatten(rounds) == round + Flatten(more);
    SettleAllConcat(specs, able, start, round, Flatten(more));
    SettleAllConcat(specs, able, start, ks, all);
    StableStays(specs, able, SettleAll(specs, able, start, ks), all);
    StableStays(specs, able, SettleAll(specs, able, start, ks), Flatten(more));
  }

  // ---------------------------------------------------------------- a condition on the start alone

  /** A path of references leads from the agent back to it. */
  ghost predicate OnCycle(specs: Specs, k: Key) {
    exists p :: IsPath(specs, p) && |p| > 1 && p[0] == k == p[|p| - 1]
  }

  lemma PartOfPath(specs: Specs, p: seq<Key>, i: nat, j: nat)
    requires IsPath(specs, p) && i < j <= |p|
    ensures IsPath(specs, p[i..j])
  {
    forall m | 0 <= m < j - i - 1
      ensures p[i..j][m] in specs && Depends(p[i..j][m], specs[p[i..j][m]], p[i..j][m + 1])
    {
      assert p[i..j][m] == p[i + m] && p[i..j][m + 1] == p[i + m + 1];
    }
  }

  /** A cycle can be walked from any of its agents. */
  lemma EveryAgentOfALoop(specs: Specs, q: seq<Key>, m: nat)
    requires IsPath(specs, q) && |q| > 1 && q[0] == q[|q| - 1] && m < |q|
    ensures OnCycle(specs, q[m])
  {
    var r := q[m..] + q[1..m + 1];
    forall i | 0 <= i < |r| - 1
      ensures r[i] in specs && Depends(r[i], specs[r[i]], r[i + 1])
    {
      var n := |q| - m;
      assert r[i] == (if i < n then q[m + i] else q[1 + i - n]);
      assert r[i + 1] == (if i + 1 < n then q[m + i + 1] else q[1 + i + 1 - n]);
      if i == n - 1 {
        assert r[i] == q[0] && r[i + 1] == q[1];
      }
    }
    assert IsPath(specs, r);
    assert r[0] == q[m] == r[|r| - 1];
  }

  /** A cycle none of whose agents is up at the start never comes up. */
  lemma LoopStaysDown(specs: Specs, able: set<Key>, start: set<Key>, q: seq<Key>)
    requires IsPath(specs, q) && |q| > 1 && q[0] == q[|q| - 1]
    requires forall k <- q :: k !in start
    ensures forall k <- q :: k !in Closure(specs, able, start)
  {
    var onLoop := set k | k in q;
    var rest := Closure(specs, able, start) - onLoop;
    ClosureIsClosed(specs, able, start);
    forall k | k in q
      ensures !Supported(specs, able, rest, k)
    {
      var i := DependsOnPath(specs, q, k);
      assert q[i + 1] in onLoop;
    }
    forall k | Supported(specs, able, rest, k)
      ensures k in rest
    {
      SupportGrows(specs, able, rest, Closure(specs, able, start), k);
    }
    ClosureIsBelow(specs, able, start, rest);
    assert forall k <- q :: k in onLoop;
  }

  lemma LoopOf(specs: Specs, up: set<Key>) returns (q: seq<Key>)
    requires HasCycle(specs, up)
    ensures IsPath(specs, q) && |q| > 1 && q[0] == q[|q| - 1] && q[0] in q && q[0] in up
  {
    var p :| IsPath(specs, p) && ComesBack(p) && forall k <- p :: k in up;
    var i :| 0 <= i < |p| - 1 && p[i] == p[|p| - 1];
    PartOfPath(specs, p, i, |p|);
    q := p[i..];
    assert q[0] == p[i] && p[i] in p;
  }

  /** So reconciling recovers whenever no agent that is up at the start lies on a cycle of references. */
  lemma RecoversWithoutCyclesAtStart(specs: Specs, able: set<Key>, start: set<Key>)
    requires start <= specs.Keys
    requires forall k <- start :: !OnCycle(specs, k)
    ensures AlwaysRestsAtLeast(specs, able, start) && RoundsAlwaysReachLeast(specs, able, start)
  {
    if HasCycle(specs, Remains(specs, able, start)) {
      var q := LoopOf(specs, Remains(specs, able, start));
      forall m | 0 <= m < |q|
        ensures q[m] !in start
      {
        EveryAgentOfALoop(specs, q, m);
      }
      LoopStaysDown(specs, able, start, q);
    }
    RecoversIff(specs, able, start);
  }
}
