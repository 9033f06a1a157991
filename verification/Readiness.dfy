/**
  Readiness as a fixpoint.

  An agent may publish its URL when it is able to run by itself and every
  sub-agent it looks up has a URL: it is remote, or it is an existing agent
  that is up.  `Least` is the least set of agents closed under that rule.
  This module is about the rule alone; the protocol is in `AgentProtocol`.
 */
module Readiness {
  import opened Api
  import opened Collections

  type Specs = map<Key, AgentSpec>

  function SpecsOf(agents: Agents): Specs {
    map k | k in agents :: agents[k].spec
  }

  /** The agent looks up the URL that the other one published. */
  predicate Depends(k: Key, spec: AgentSpec, child: Key) {
    exists s <- spec.subAgents :: s.url == "" && s.agentRef.Some? && RefKey(s.agentRef.value, k.namespace) == child
  }

  predicate NothingUnspecified(spec: AgentSpec) {
    forall s <- spec.subAgents :: s.url != "" || s.agentRef.Some?
  }

  /** The rule: one agent may be up when these are. */
  predicate Supported(specs: Specs, able: set<Key>, up: set<Key>, k: Key) {
    && k in specs && k in able
    && forall s <- specs[k].subAgents :: s.url != "" || (s.agentRef.Some? && RefKey(s.agentRef.value, k.namespace) in up)
  }

  ghost predicate SupportClosed(specs: Specs, able: set<Key>, s: set<Key>) {
    forall k {:trigger Supported(specs, able, s, k)} :: Supported(specs, able, s, k) ==> k in s
  }

  ghost predicate InEverySupportClosed(specs: Specs, able: set<Key>, k: Key) {
    forall s: set<Key> :: SupportClosed(specs, able, s) ==> k in s
  }

  ghost function Least(specs: Specs, able: set<Key>): set<Key> {
    set k | k in specs && InEverySupportClosed(specs, able, k)
  }

  lemma SupportGrows(specs: Specs, able: set<Key>, up: set<Key>, up': set<Key>, k: Key)
    requires up <= up' && Supported(specs, able, up, k)
    ensures Supported(specs, able, up', k)
  {
  }

  lemma LeastIsBelow(specs: Specs, able: set<Key>, s: set<Key>)
    requires SupportClosed(specs, able, s)
    ensures Least(specs, able) <= s
  {
    forall k | k in Least(specs, able)
      ensures k in s
    {
      assert InEverySupportClosed(specs, able, k);
    }
  }

  /** `Least` is a fixpoint: it holds exactly the agents that it supports. */
  lemma LeastIsFixpoint(specs: Specs, able: set<Key>, k: Key)
    ensures k in Least(specs, able) <==> Supported(specs, able, Least(specs, able), k)
  {
    var least := Least(specs, able);
    LeastIsClosed(specs, able);
    var supported := set j | j in specs && Supported(specs, able, least, j);
    forall j | j in specs && Supported(specs, able, supported, j)
      ensures j in supported
    {
      SupportGrows(specs, able, supported, least, j);
    }
    LeastIsBelow(specs, able, supported);
  }

  lemma LeastIsClosed(specs: Specs, able: set<Key>)
    ensures SupportClosed(specs, able, Least(specs, able))
  {
    forall k | k in specs && Supported(specs, able, Least(specs, able), k)
      ensures InEverySupportClosed(specs, able, k)
    {
      forall s: set<Key> | SupportClosed(specs, able, s)
        ensures k in s
      {
        LeastIsBelow(specs, able, s);
        SupportGrows(specs, able, Least(specs, able), s, k);
      }
    }
  }

  // ---------------------------------------------------------------- cycles

  /** Each agent of the path exists, except perhaps the last, and depends on the next. */
  ghost predicate IsPath(specs: Specs, p: seq<Key>) {
    && p != []
    && forall i :: 0 <= i < |p| - 1 ==> p[i] in specs && Depends(p[i], specs[p[i]], p[i + 1])
  }

  /** The path has come back to an agent it passed. */
  ghost predicate ComesBack(p: seq<Key>) {
    exists i :: 0 <= i < |p| - 1 && p[i] == p[|p| - 1]
  }

  /** An agent on a cycle of references, or on a path into one, is never in the least fixpoint. */
  lemma CyclesNeverComeUp(specs: Specs, able: set<Key>, p: seq<Key>)
    requires IsPath(specs, p) && ComesBack(p)
    ensures forall i :: 0 <= i < |p| ==> p[i] !in Least(specs, able)
  {
    var onPath := set k | k in p;
    var rest := specs.Keys - onPath;
    forall k | k in p
      ensures !Supported(specs, able, rest, k)
    {
      var i := DependsOnPath(specs, p, k);
      assert p[i + 1] in onPath;
    }
    LeastIsBelow(specs, able, rest);
    assert forall i :: 0 <= i < |p| ==> p[i] in onPath;
  }

  lemma DependsOnPath(specs: Specs, p: seq<Key>, k: Key) returns (i: nat)
    requires IsPath(specs, p) && ComesBack(p) && k in p
    ensures i < |p| - 1 && p[i] == k && k in specs && Depends(k, specs[k], p[i + 1])
  {
    var j :| 0 <= j < |p| && p[j] == k;
    if j < |p| - 1 {
      i := j;
    } else {
      i :| 0 <= i < |p| - 1 && p[i] == p[|p| - 1];
    }
  }

  lemma ExtendPath(specs: Specs, p: seq<Key>, child: Key)
    requires IsPath(specs, p) && p[|p| - 1] in specs && Depends(p[|p| - 1], specs[p[|p| - 1]], child)
    ensures IsPath(specs, p + [child])
  {
    var q := p + [child];
    forall i | 0 <= i < |q| - 1
      ensures q[i] in specs && Depends(q[i], specs[q[i]], q[i + 1])
    {
      assert q[i] == p[i] && (i < |p| - 1 ==> q[i + 1] == p[i + 1]);
    }
  }

  lemma {:induction false} PathStaysUp(specs: Specs, able: set<Key>, up: set<Key>, p: seq<Key>, i: nat)
    requires IsPath(specs, p) && i < |p| && p[0] in up
    requires forall k <- up :: Supported(specs, able, up, k)
    ensures p[i] in up
    decreases i
  {
    if i > 0 {
      PathStaysUp(specs, able, up, p, i - 1);
      assert Supported(specs, able, up, p[i - 1]);
    }
  }

  /** Nothing is wrong at the end of this path. */
  ghost predicate SoundPath(specs: Specs, able: set<Key>, p: seq<Key>)
    requires p != []
  {
    var last := p[|p| - 1];
    last in specs && last in able && NothingUnspecified(specs[last]) && !ComesBack(p)
  }

  /** Among more elements than the set has, two are equal. */
  lemma {:induction false} Repetition(p: seq<Key>, all: set<Key>) returns (i: nat, j: nat)
    requires |p| > |all|
    requires forall i :: 0 <= i < |p| ==> p[i] in all
    ensures i < j < |p| && p[i] == p[j]
  {
    var n := |p| - 1;
    if earlier :| 0 <= earlier < n && p[earlier] == p[n] {
      i, j := earlier, n;
    } else {
      i, j := Repetition(p[..n], all - {p[n]});
    }
  }

  /** A path that is long enough comes back. */
  lemma LongPathComesBack(specs: Specs, p: seq<Key>) returns (q: seq<Key>)
    requires IsPath(specs, p) && |p| > |specs|
    requires forall i :: 0 <= i < |p| ==> p[i] in specs
    ensures q != [] && q <= p && IsPath(specs, q) && ComesBack(q)
  {
    assert |specs.Keys| == |specs|;
    var i, j := Repetition(p, specs.Keys);
    q := p[..j + 1];
    assert q[i] == q[|q| - 1];
  }

  /** An agent that one set supports and a smaller one does not depends on an agent in between. */
  lemma ChildInBetween(specs: Specs, able: set<Key>, up: set<Key>, less: set<Key>, k: Key) returns (child: Key)
    requires Supported(specs, able, up, k) && !Supported(specs, able, less, k)
    ensures Depends(k, specs[k], child) && child in up && child !in less
  {
    var s :| s in specs[k].subAgents && s.url == "" && s.agentRef.Some? && RefKey(s.agentRef.value, k.namespace) !in less;
    child := RefKey(s.agentRef.value, k.namespace);
  }

  /** Walking on outside a closed set: the path grows to any length, unless it ends where something is wrong. */
  lemma {:induction false} WalkOutside(specs: Specs, able: set<Key>, up: set<Key>, k: Key, n: nat) returns (p: seq<Key>)
    requires SupportClosed(specs, able, up) && k !in up
    ensures IsPath(specs, p) && p[0] == k
    ensures !SoundPath(specs, able, p) || (|p| == n + 1 && p[n] !in up && forall i :: 0 <= i < |p| ==> p[i] in specs)
    decreases n
  {
    if n == 0 {
      p := [k];
    } else {
      p := WalkOutside(specs, able, up, k, n - 1);
      if SoundPath(specs, able, p) {
        var last := p[n - 1];
        assert !Supported(specs, able, up, last);
        var s :| s in specs[last].subAgents && s.url == "" && s.agentRef.Some? && RefKey(s.agentRef.value, last.namespace) !in up;
        var child := RefKey(s.agentRef.value, last.namespace);
        assert Depends(last, specs[last], child);
        ExtendPath(specs, p, child);
        p := p + [child];
      }
    }
  }

  lemma UnsoundPathOutside(specs: Specs, able: set<Key>, up: set<Key>, k: Key) returns (p: seq<Key>)
    requires SupportClosed(specs, able, up) && k !in up
    ensures IsPath(specs, p) && p[0] == k && !SoundPath(specs, able, p)
  {
    p := WalkOutside(specs, able, up, k, |specs|);
    if SoundPath(specs, able, p) {
      p := LongPathComesBack(specs, p);
    }
  }

  /**
    The least fixpoint explicitly: an agent is in it exactly when every path
    of references from it meets only existing agents that are able and whose
    sub-agents are all specified, and never comes back to where it was.
   */
  lemma LeastIffEveryPathIsSound(specs: Specs, able: set<Key>, k: Key)
    ensures k in Least(specs, able) <==> forall p | IsPath(specs, p) && p[0] == k :: SoundPath(specs, able, p)
  {
    if k in Least(specs, able) {
      forall p | IsPath(specs, p) && p[0] == k
        ensures SoundPath(specs, able, p)
      {
        LeastPathIsSound(specs, able, p);
      }
    } else {
      LeastIsClosed(specs, able);
      var p := UnsoundPathOutside(specs, able, Least(specs, able), k);
    }
  }

  lemma LeastPathIsSound(specs: Specs, able: set<Key>, p: seq<Key>)
    requires IsPath(specs, p) && p[0] in Least(specs, able)
    ensures SoundPath(specs, able, p)
  {
    forall k | k in Least(specs, able)
      ensures Supported(specs, able, Least(specs, able), k)
    {
      LeastIsFixpoint(specs, able, k);
    }
    PathStaysUp(specs, able, Least(specs, able), p, |p| - 1);
    if ComesBack(p) {
      CyclesNeverComeUp(specs, able, p);
    }
  }

  // ---------------------------------------------------------------- reconciling in any order

  /** One reconcile, as far as being up is concerned. */
  function Settle(specs: Specs, able: set<Key>, up: set<Key>, k: Key): set<Key> {
    if Supported(specs, able, up, k) then up + {k} else up - {k}
  }

  function SettleAll(specs: Specs, able: set<Key>, up: set<Key>, ks: seq<Key>): set<Key>
    decreases |ks|
  {
    if ks == [] then up else SettleAll(specs, able, Settle(specs, able, up, ks[0]), ks[1..])
  }

  /** No agent is up without support: so it is when none is up. */
  ghost predicate Consistent(specs: Specs, able: set<Key>, up: set<Key>) {
    forall k {:trigger Supported(specs, able, up, k)} :: k in up ==> Supported(specs, able, up, k)
  }

  /** No reconcile would change which agents are up. */
  ghost predicate Stable(specs: Specs, able: set<Key>, up: set<Key>) {
    forall k :: Settle(specs, able, up, k) == up
  }

  lemma StableIffFixpoint(specs: Specs, able: set<Key>, up: set<Key>)
    ensures Stable(specs, able, up) <==> forall k :: k in up <==> Supported(specs, able, up, k)
  {
    if Stable(specs, able, up) {
      forall k
        ensures k in up <==> Supported(specs, able, up, k)
      {
        assert Settle(specs, able, up, k) == up;
      }
    }
  }

  /** From a consistent state no agent ever goes down, whatever the order. */
  lemma {:induction false} NoneGoesDown(specs: Specs, able: set<Key>, up: set<Key>, ks: seq<Key>)
    requires Consistent(specs, able, up)
    ensures up <= SettleAll(specs, able, up, ks)
    ensures Consistent(specs, able, SettleAll(specs, able, up, ks))
    ensures SettleAll(specs, able, up, ks) <= specs.Keys
    decreases |ks|
  {
    if ks != [] {
      SettleKeepsConsistent(specs, able, up, ks[0]);
      NoneGoesDown(specs, able, Settle(specs, able, up, ks[0]), ks[1..]);
    } else {
      assert forall k <- up :: Supported(specs, able, up, k);
    }
  }

  lemma SettleKeepsConsistent(specs: Specs, able: set<Key>, up: set<Key>, k: Key)
    requires Consistent(specs, able, up)
    ensures up <= Settle(specs, able, up, k)
    ensures Consistent(specs, able, Settle(specs, able, up, k))
  {
    var up' := Settle(specs, able, up, k);
    forall j | j in up'
      ensures Supported(specs, able, up', j)
    {
      SupportGrows(specs, able, up, up', j);
    }
  }

  /** The number of reconciles in a row that change which agents are up. */
  function Changes(specs: Specs, able: set<Key>, up: set<Key>, ks: seq<Key>): nat
    decreases |ks|
  {
    if ks == [] then 0
    else
      var up' := Settle(specs, able, up, ks[0]);
      (if up' != up then 1 else 0) + Changes(specs, able, up', ks[1..])
  }

  /** Each agent changes at most once, so there are at most as many changes as agents are not up yet. */
  lemma {:induction false} ChangesAreBounded(specs: Specs, able: set<Key>, up: set<Key>, ks: seq<Key>)
    requires Consistent(specs, able, up)
    ensures Changes(specs, able, up, ks) == |SettleAll(specs, able, up, ks)| - |up|
    ensures Changes(specs, able, up, ks) <= |specs| - |up|
    decreases |ks|
  {
    NoneGoesDown(specs, able, up, ks);
    if ks != [] {
      SettleKeepsConsistent(specs, able, up, ks[0]);
      ChangesAreBounded(specs, able, Settle(specs, able, up, ks[0]), ks[1..]);
    }
    SubsetSize(SettleAll(specs, able, up, ks), specs.Keys);
    assert |specs.Keys| == |specs|;
  }

  /** Starting with none up, only members of the least fixpoint ever come up. */
  lemma {:induction false} OnlyLeastComesUp(specs: Specs, able: set<Key>, up: set<Key>, ks: seq<Key>)
    requires up <= Least(specs, able)
    ensures SettleAll(specs, able, up, ks) <= Least(specs, able)
    decreases |ks|
  {
    if ks != [] {
      if Supported(specs, able, up, ks[0]) {
        SupportGrows(specs, able, up, Least(specs, able), ks[0]);
        LeastIsFixpoint(specs, able, ks[0]);
      }
      OnlyLeastComesUp(specs, able, Settle(specs, able, up, ks[0]), ks[1..]);
    }
  }

  /** A stable state holds at least the least fixpoint. */
  lemma StableIsAboveLeast(specs: Specs, able: set<Key>, up: set<Key>)
    requires Stable(specs, able, up)
    ensures Least(specs, able) <= up
  {
    StableIffFixpoint(specs, able, up);
    LeastIsBelow(specs, able, up);
  }

  /** Where reconciling from a URL-free cluster comes to rest, exactly the least fixpoint is up. */
  lemma RestIsLeast(specs: Specs, able: set<Key>, ks: seq<Key>)
    requires Stable(specs, able, SettleAll(specs, able, {}, ks))
    ensures SettleAll(specs, able, {}, ks) == Least(specs, able)
  {
    OnlyLeastComesUp(specs, able, {}, ks);
    StableIsAboveLeast(specs, able, SettleAll(specs, able, {}, ks));
  }

  // ---------------------------------------------------------------- convergence

  /** Every agent is reconciled at least once, in any order. */
  ghost predicate IsRound(specs: Specs, round: seq<Key>) {
    forall k <- specs :: k in round
  }

  lemma {:induction false} SettleAllConcat(specs: Specs, able: set<Key>, up: set<Key>, a: seq<Key>, b: seq<Key>)
    ensures SettleAll(specs, able, up, a + b) == SettleAll(specs, able, SettleAll(specs, able, up, a), b)
    decreases |a|
  {
    if a == [] {
      assert a + b == b;
    } else {
      assert (a + b)[1..] == a[1..] + b;
      SettleAllConcat(specs, able, Settle(specs, able, up, a[0]), a[1..], b);
    }
  }

  lemma {:induction false} SettledWhenReconciled(specs: Specs, able: set<Key>, up: set<Key>, ks: seq<Key>, k: Key)
    requires Consistent(specs, able, up) && k in ks && Supported(specs, able, up, k)
    ensures k in SettleAll(specs, able, up, ks)
    decreases |ks|
  {
    var up' := Settle(specs, able, up, ks[0]);
    SettleKeepsConsistent(specs, able, up, ks[0]);
    if ks[0] == k {
      NoneGoesDown(specs, able, up', ks[1..]);
    } else {
      SupportGrows(specs, able, up, up', k);
      SettledWhenReconciled(specs, able, up', ks[1..], k);
    }
  }

  /** A round of reconciles brings one more agent up, unless nothing can change any more. */
  lemma RoundMakesProgress(specs: Specs, able: set<Key>, up: set<Key>, round: seq<Key>)
    requires Consistent(specs, able, up) && IsRound(specs, round)
    ensures Stable(specs, able, up) || |SettleAll(specs, able, up, round)| > |up|
  {
    if !Stable(specs, able, up) {
      StableIffFixpoint(specs, able, up);
      var k :| !(k in up <==> Supported(specs, able, up, k));
      assert k !in up && k in specs;
      SettledWhenReconciled(specs, able, up, round, k);
      NoneGoesDown(specs, able, up, round);
      var up' := SettleAll(specs, able, up, round);
      SubsetSize(up + {k}, up');
    }
  }

  lemma {:induction false} StableStays(specs: Specs, able: set<Key>, up: set<Key>, ks: seq<Key>)
    requires Stable(specs, able, up)
    ensures SettleAll(specs, able, up, ks) == up
    decreases |ks|
  {
    if ks != [] {
      assert Settle(specs, able, up, ks[0]) == up;
      StableStays(specs, able, up, ks[1..]);
    }
  }

  function Flatten(rounds: seq<seq<Key>>): seq<Key> {
    if rounds == [] then [] else rounds[0] + Flatten(rounds[1..])
  }

  lemma {:induction false} RoundsSettle(specs: Specs, able: set<Key>, up: set<Key>, rounds: seq<seq<Key>>)
    requires Consistent(specs, able, up)
    requires forall r <- rounds :: IsRound(specs, r)
    requires |up| + |rounds| >= |specs|
    ensures Stable(specs, able, SettleAll(specs, able, up, Flatten(rounds)))
    decreases |rounds|
  {
    if Stable(specs, able, up) {
      StableStays(specs, able, up, Flatten(rounds));
    } else if rounds == [] {
      NoneGoesDown(specs, able, up, []);
      assert |specs.Keys| == |specs|;
      SubsetSize(up, specs.Keys);
      StableIffFixpoint(specs, able, up);
    } else {
      var up' := SettleAll(specs, able, up, rounds[0]);
      RoundMakesProgress(specs, able, up, rounds[0]);
      NoneGoesDown(specs, able, up, rounds[0]);
      RoundsSettle(specs, able, up', rounds[1..]);
      SettleAllConcat(specs, able, up, rounds[0], Flatten(rounds[1..]));
    }
  }

  /**
    Convergence.  From a URL-free cluster, as many rounds as there are agents,
    each round in its own order, bring up exactly the least fixpoint.
   */
  lemma RoundsReachLeast(specs: Specs, able: set<Key>, rounds: seq<seq<Key>>)
    requires forall r <- rounds :: IsRound(specs, r)
    requires |rounds| >= |specs|
    ensures SettleAll(specs, able, {}, Flatten(rounds)) == Least(specs, able)
  {
    RoundsSettle(specs, able, {}, rounds);
    RestIsLeast(specs, able, Flatten(rounds));
  }

  // ---------------------------------------------------------------- from any starting status

  /** The agents of this set reference each other in a cycle. */
  ghost predicate HasCycle(specs: Specs, up: set<Key>) {
    exists p :: IsPath(specs, p) && ComesBack(p) && forall k <- p :: k in up
  }

  /** Walking on between two sets that the rule relates: the path stays there, to any length. */
  lemma {:induction false} WalkBetween(specs: Specs, able: set<Key>, up: set<Key>, less: set<Key>, k: Key, n: nat) returns (p: seq<Key>)
    requires Consistent(specs, able, up) && SupportClosed(specs, able, less)
    requires k in up && k !in less
    ensures |p| == n + 1 && IsPath(specs, p) && p[n] !in less
    ensures forall i :: 0 <= i < |p| ==> p[i] in up
    decreases n
  {
    if n == 0 {
      p := [k];
    } else {
      p := WalkBetween(specs, able, up, less, k, n - 1);
      assert Supported(specs, able, up, p[n - 1]);
      var child := ChildInBetween(specs, able, up, less, p[n - 1]);
      ExtendPath(specs, p, child);
      p := p + [child];
    }
  }

  /** If more is up than a closed set, some of it is a cycle. */
  lemma AboveClosedHasCycle(specs: Specs, able: set<Key>, up: set<Key>, less: set<Key>, k: Key)
    requires Consistent(specs, able, up) && SupportClosed(specs, able, less)
    requires k in up && k !in less
    ensures HasCycle(specs, up)
  {
    var p := WalkBetween(specs, able, up, less, k, |specs|);
    forall i | 0 <= i < |p|
      ensures p[i] in specs
    {
      assert Supported(specs, able, up, p[i]);
    }
    var q := LongPathComesBack(specs, p);
    assert forall j <- q :: j in up;
  }

  lemma LeastHasNoCycle(specs: Specs, able: set<Key>)
    ensures !HasCycle(specs, Least(specs, able))
  {
    forall p | IsPath(specs, p) && ComesBack(p)
      ensures p[0] in p && p[0] !in Least(specs, able)
    {
      CyclesNeverComeUp(specs, able, p);
    }
  }

  /**
    The exact condition for a stable state, reached from whatever statuses,
    to be the least fixpoint: the agents that are up form no cycle.
   */
  lemma StableIsLeastIffNoCycleIsUp(specs: Specs, able: set<Key>, up: set<Key>)
    requires Stable(specs, able, up)
    ensures up == Least(specs, able) <==> !HasCycle(specs, up)
  {
    StableIffFixpoint(specs, able, up);
    StableIsAboveLeast(specs, able, up);
    LeastHasNoCycle(specs, able);
    if up != Least(specs, able) {
      var k :| k in up && k !in Least(specs, able);
      LeastIsClosed(specs, able);
      AboveClosedHasCycle(specs, able, up, Least(specs, able), k);
    }
  }

  /** With acyclic references there is one stable state, so the statuses at the start do not matter. */
  lemma AcyclicHasOneStableState(specs: Specs, able: set<Key>, up: set<Key>, up': set<Key>)
    requires !HasCycle(specs, specs.Keys)
    requires Stable(specs, able, up) && Stable(specs, able, up')
    ensures up == up' == Least(specs, able)
  {
    StableIffFixpoint(specs, able, up);
    StableIffFixpoint(specs, able, up');
    if HasCycle(specs, up) {
      CycleInSuperset(specs, up, specs.Keys);
    }
    if HasCycle(specs, up') {
      CycleInSuperset(specs, up', specs.Keys);
    }
    StableIsLeastIffNoCycleIsUp(specs, able, up);
    StableIsLeastIffNoCycleIsUp(specs, able, up');
  }

  lemma CycleInSuperset(specs: Specs, up: set<Key>, up': set<Key>)
    requires up <= up' && HasCycle(specs, up)
    ensures HasCycle(specs, up')
  {
    var p :| IsPath(specs, p) && ComesBack(p) && forall k <- p :: k in up;
    assert forall k <- p :: k in up';
  }

  /** A cycle keeps itself up: two agents that reference each other and are up are stable, but not least. */
  lemma CycleKeepsItselfUp(a: Key, b: Key, specs: Specs, able: set<Key>, refA: SubAgent, refB: SubAgent)
    requires a != b && specs.Keys == {a, b} == able
    requires refA.url == "" == refB.url && refA.agentRef.Some? && refB.agentRef.Some?
    requires RefKey(refA.agentRef.value, a.namespace) == b && RefKey(refB.agentRef.value, b.namespace) == a
    requires specs[a].subAgents == [refA] && specs[b].subAgents == [refB]
    ensures Stable(specs, able, {a, b}) && Stable(specs, able, {}) && Least(specs, able) == {}
  {
    StableIffFixpoint(specs, able, {a, b});
    assert refA in specs[a].subAgents && refB in specs[b].subAgents;
    StableIffFixpoint(specs, able, {});
    LeastIsBelow(specs, able, {});
  }
}
