/**
  Readiness convergence: what whole reconciles do to the published URLs while
  tools, gateways, configurations and specs stay as they are and no write
  fails.
 */
module ReadinessConvergence {
  import opened Api
  import opened AgentUrls
  import opened Resolution
  import opened Readiness
  import opened ReadinessRecovery
  import opened AgentProtocol

  /** Every interaction type that reaches the environment is set, whatever the URLs are. */
  predicate TypesSet(spec: AgentSpec) {
    EnvironmentBuildable(SubAgentMap(spec.subAgents, seq(|spec.subAgents|, _ => Url(""))))
  }

  /** Everything the agent needs besides its sub-agents is there. */
  ghost predicate SelfSufficient(world: World, k: Key, spec: AgentSpec) {
    && HasA2A(spec)
    && TypesSet(spec)
    && forall q <- Plan(spec) :: q.AskSubAgent? || !FindsNothing(world, k.namespace, q)
  }

  ghost function Able(world: World): set<Key> {
    set k | k in world.agents && SelfSufficient(world, k, world.agents[k].spec)
  }

  /** The agents that have published a URL. */
  function Ups(world: World): set<Key> {
    set k | k in world.agents && world.agents[k].status.url != ""
  }

  /** One whole reconcile, with nothing changing in between and no failing write. */
  ghost predicate IsReconcile(world: World, k: Key, world': World) {
    if k !in world.agents then world' == world
    else
      var agent := world.agents[k];
      exists r :: MayResolve(world, k, agent.spec, r)
                  && world' == world.(agents := world.agents[k := agent.(status := StatusOf(k, agent.spec, r))])
  }

  ghost predicate ReconcileAt(worlds: seq<World>, ks: seq<Key>, i: nat)
    requires |worlds| == |ks| + 1 && i < |ks|
  {
    IsReconcile(worlds[i], ks[i], worlds[i + 1])
  }

  /** Reconciles in this order, one after the other. */
  ghost predicate IsHistory(worlds: seq<World>, ks: seq<Key>) {
    && |worlds| == |ks| + 1
    && forall i {:trigger ReconcileAt(worlds, ks, i)} :: 0 <= i < |ks| ==> ReconcileAt(worlds, ks, i)
  }

  lemma {:induction false} TypesDoNotDependOnUrls(subs: seq<SubAgent>, a: seq<Answer>, b: seq<Answer>)
    requires |subs| == |a| == |b|
    requires forall i :: 0 <= i < |subs| ==> a[i].Url? && b[i].Url?
    ensures SubAgentMap(subs, a).Keys == SubAgentMap(subs, b).Keys
    ensures forall n <- SubAgentMap(subs, a) :: SubAgentMap(subs, a)[n].interactionType == SubAgentMap(subs, b)[n].interactionType
  {
    if subs != [] {
      var n := |subs| - 1;
      TypesDoNotDependOnUrls(subs[..n], a[..n], b[..n]);
    }
  }

  /** The look-up of a sub-agent succeeds exactly when the sub-agent is remote or up. */
  lemma SubAgentFound(world: World, k: Key, s: SubAgent)
    ensures !FindsNothing(world, k.namespace, AskSubAgent(s))
            <==> s.url != "" || (s.agentRef.Some? && RefKey(s.agentRef.value, k.namespace) in Ups(world))
  {
  }

  lemma NoFailureIffAllFound(world: World, k: Key, spec: AgentSpec, answers: seq<Answer>)
    requires AreAnswers(world, k.namespace, spec, answers)
    ensures NotResolved !in answers <==> forall q <- Plan(spec) :: !FindsNothing(world, k.namespace, q)
  {
    forall i | 0 <= i < |answers|
      ensures answers[i] == NotResolved <==> FindsNothing(world, k.namespace, Plan(spec)[i])
    {
      FailureIsSure(world, k.namespace, Plan(spec)[i], answers[i]);
    }
    if NotResolved !in answers {
      forall q | q in Plan(spec)
        ensures !FindsNothing(world, k.namespace, q)
      {
        var i :| 0 <= i < |Plan(spec)| && Plan(spec)[i] == q;
        assert answers[i] in answers;
      }
    }
  }

  /** With no failed answer, only the interaction types can keep the environment from being built. */
  lemma ResolvedIffTypesSet(world: World, k: Key, spec: AgentSpec, answers: seq<Answer>)
    requires AreAnswers(world, k.namespace, spec, answers) && NotResolved !in answers
    ensures Outcome(spec, answers).Resolved? <==> TypesSet(spec)
  {
    var subs := answers[1..1 + |spec.subAgents|];
    forall i | 0 <= i < |subs|
      ensures subs[i].Url?
    {
      assert Plan(spec)[1 + i] == AskSubAgent(spec.subAgents[i]);
      assert MayAnswer(world, k.namespace, Plan(spec)[1 + i], answers[1 + i]) && answers[1 + i] in answers;
    }
    TypesDoNotDependOnUrls(spec.subAgents, subs, seq(|spec.subAgents|, _ => Url("")));
  }

  /** Every look-up of the agent finds something, and its environment can be built. */
  ghost predicate CanResolve(world: World, k: Key, spec: AgentSpec) {
    TypesSet(spec) && forall q <- Plan(spec) :: !FindsNothing(world, k.namespace, q)
  }

  lemma ResolvesIff(world: World, k: Key, spec: AgentSpec, r: Resolution)
    requires MayResolve(world, k, spec, r)
    ensures r.Resolved? <==> CanResolve(world, k, spec)
  {
    var answers :| AreAnswers(world, k.namespace, spec, answers) && r == Outcome(spec, answers);
    NoFailureIffAllFound(world, k, spec, answers);
    if NotResolved !in answers {
      ResolvedIffTypesSet(world, k, spec, answers);
    }
  }

  /** A reconcile publishes a URL exactly when the rule of readiness supports the agent, whatever gateway it finds. */
  lemma PublishesIffSupported(world: World, k: Key, r: Resolution)
    requires k in world.agents && MayResolve(world, k, world.agents[k].spec, r)
    ensures StatusOf(k, world.agents[k].spec, r).url != ""
            <==> Supported(SpecsOf(world.agents), Able(world), Ups(world), k)
  {
    var spec := world.agents[k].spec;
    CardUrlIffA2A(k, spec);
    ResolvesIff(world, k, spec, r);
    SubAgentsAnswered(world, k, spec);
  }

  lemma SubAgentsAnswered(world: World, k: Key, spec: AgentSpec)
    ensures (forall q <- Plan(spec) :: q.AskSubAgent? ==> !FindsNothing(world, k.namespace, q))
            <==> forall s <- spec.subAgents :: s.url != "" || (s.agentRef.Some? && RefKey(s.agentRef.value, k.namespace) in Ups(world))
  {
    forall s | s in spec.subAgents
      ensures AskSubAgent(s) in Plan(spec)
    {
      var j :| 0 <= j < |spec.subAgents| && spec.subAgents[j] == s;
      assert Plan(spec)[1 + j] == AskSubAgent(s);
    }
    forall q | q in Plan(spec) && q.AskSubAgent?
      ensures q.subAgent in spec.subAgents
    {
      PlanHas(spec, q);
    }
    forall s | s in spec.subAgents
      ensures !FindsNothing(world, k.namespace, AskSubAgent(s))
              <==> s.url != "" || (s.agentRef.Some? && RefKey(s.agentRef.value, k.namespace) in Ups(world))
    {
      SubAgentFound(world, k, s);
    }
  }

  /** What an agent needs besides its sub-agents does not depend on any agent. */
  lemma SelfSufficiencyFrame(world: World, agents': Agents, k: Key, spec: AgentSpec)
    ensures SelfSufficient(world.(agents := agents'), k, spec) <==> SelfSufficient(world, k, spec)
  {
    forall q: Query | !q.AskSubAgent?
      ensures FindsNothing(world.(agents := agents'), k.namespace, q) <==> FindsNothing(world, k.namespace, q)
    {
    }
  }

  lemma AbleFrame(world: World, agents': Agents)
    requires SpecsOf(agents') == SpecsOf(world.agents)
    ensures Able(world.(agents := agents')) == Able(world)
  {
    assert agents'.Keys == SpecsOf(agents').Keys == world.agents.Keys;
    forall j | j in world.agents
      ensures j in Able(world.(agents := agents')) <==> j in Able(world)
    {
      assert SpecsOf(agents')[j] == SpecsOf(world.agents)[j];
      SelfSufficiencyFrame(world, agents', j, world.agents[j].spec);
    }
  }

  lemma SomeReconcile(world: World, k: Key) returns (world': World)
    ensures IsReconcile(world, k, world')
  {
    world' := world;
    if k in world.agents {
      var agent := world.agents[k];
      var answers := AnswersGoOn(world, k.namespace, agent.spec, []);
      var r := Outcome(agent.spec, answers);
      assert MayResolve(world, k, agent.spec, r);
      world' := world.(agents := world.agents[k := agent.(status := StatusOf(k, agent.spec, r))]);
    }
  }

  /** On the published URLs a whole reconcile is one application of the rule; it changes no spec, and not what agents are able to. */
  lemma ReconcileIsSettle(world: World, k: Key, world': World)
    requires IsReconcile(world, k, world')
    ensures SpecsOf(world'.agents) == SpecsOf(world.agents) && Able(world') == Able(world)
    ensures Ups(world') == Settle(SpecsOf(world.agents), Able(world), Ups(world), k)
  {
    if k in world.agents {
      var agent := world.agents[k];
      var r :| MayResolve(world, k, agent.spec, r)
               && world' == world.(agents := world.agents[k := agent.(status := StatusOf(k, agent.spec, r))]);
      StatusIsSettle(world, k, r);
    }
  }

  lemma StatusIsSettle(world: World, k: Key, r: Resolution)
    requires k in world.agents && MayResolve(world, k, world.agents[k].spec, r)
    ensures
      var agents' := world.agents[k := world.agents[k].(status := StatusOf(k, world.agents[k].spec, r))];
      var world' := world.(agents := agents');
      && SpecsOf(agents') == SpecsOf(world.agents) && Able(world') == Able(world)
      && Ups(world') == Settle(SpecsOf(world.agents), Able(world), Ups(world), k)
  {
    var agents' := world.agents[k := world.agents[k].(status := StatusOf(k, world.agents[k].spec, r))];
    assert SpecsOf(agents') == SpecsOf(world.agents);
    AbleFrame(world, agents');
    PublishesIffSupported(world, k, r);
  }

  lemma {:induction false} HistoryIsSettleAll(worlds: seq<World>, ks: seq<Key>)
    requires IsHistory(worlds, ks)
    ensures
      var first, last := worlds[0], worlds[|ks|];
      && SpecsOf(last.agents) == SpecsOf(first.agents) && Able(last) == Able(first)
      && Ups(last) == SettleAll(SpecsOf(first.agents), Able(first), Ups(first), ks)
    decreases |ks|
  {
    if ks != [] {
      var n := |ks| - 1;
      HistoryBegins(worlds, ks, n);
      HistoryIsSettleAll(worlds[..n + 1], ks[..n]);
      assert ReconcileAt(worlds, ks, n);
      ReconcileIsSettle(worlds[n], ks[n], worlds[n + 1]);
      var specs, able, up := SpecsOf(worlds[0].agents), Able(worlds[0]), Ups(worlds[0]);
      SettleAllConcat(specs, able, up, ks[..n], [ks[n]]);
      assert ks == ks[..n] + [ks[n]];
      assert [ks[n]][1..] == [];
    }
  }

  lemma HistoryBegins(worlds: seq<World>, ks: seq<Key>, n: nat)
    requires IsHistory(worlds, ks) && n <= |ks|
    ensures IsHistory(worlds[..n + 1], ks[..n])
  {
    var ws, js := worlds[..n + 1], ks[..n];
    forall i | 0 <= i < n
      ensures ReconcileAt(ws, js, i)
    {
      assert ReconcileAt(worlds, ks, i);
    }
  }

  /** Every published URL is the agent's own card URL. */
  ghost predicate OwnUrls(world: World) {
    forall k <- world.agents :: world.agents[k].status.url in {"", CardUrl(k, world.agents[k].spec)}
  }

  lemma ReconcileKeepsOwnUrls(world: World, k: Key, world': World)
    requires IsReconcile(world, k, world') && OwnUrls(world)
    ensures OwnUrls(world')
  {
  }

  lemma StepKeepsOwnUrls(worlds: seq<World>, ks: seq<Key>, i: nat)
    requires IsHistory(worlds, ks) && 0 < i < |worlds| && OwnUrls(worlds[i - 1])
    ensures OwnUrls(worlds[i])
  {
    assert ReconcileAt(worlds, ks, i - 1);
    ReconcileKeepsOwnUrls(worlds[i - 1], ks[i - 1], worlds[i]);
  }

  lemma {:induction false} HistoryKeepsOwnUrls(worlds: seq<World>, ks: seq<Key>, i: nat)
    requires IsHistory(worlds, ks) && OwnUrls(worlds[0]) && i < |worlds|
    ensures OwnUrls(worlds[i])
    decreases i
  {
    if i > 0 {
      HistoryKeepsOwnUrls(worlds, ks, i - 1);
      StepKeepsOwnUrls(worlds, ks, i);
    }
  }

  /** A URL that was published stays, and stays the same, however reconciling goes on. */
  lemma UrlsAreNeverCleared(worlds: seq<World>, ks: seq<Key>, i: nat, j: nat, k: Key)
    requires IsHistory(worlds, ks) && Ups(worlds[0]) == {}
    requires i <= j < |worlds| && k in worlds[i].agents && worlds[i].agents[k].status.url != ""
    ensures k in worlds[j].agents && worlds[j].agents[k].status.url == worlds[i].agents[k].status.url
  {
    var specs, able := SpecsOf(worlds[0].agents), Able(worlds[0]);
    HistoryBegins(worlds, ks, i);
    HistoryIsSettleAll(worlds[..i + 1], ks[..i]);
    HistoryBegins(worlds, ks, j);
    HistoryIsSettleAll(worlds[..j + 1], ks[..j]);
    assert ks[..j] == ks[..i] + ks[i..j];
    SettleAllConcat(specs, able, {}, ks[..i], ks[i..j]);
    NoneGoesDown(specs, able, {}, ks[..i]);
    NoneGoesDown(specs, able, Ups(worlds[i]), ks[i..j]);
    assert k in Ups(worlds[i]) && k in Ups(worlds[j]);
    forall m | m in worlds[0].agents
      ensures worlds[0].agents[m].status.url == ""
    {
      assert m !in Ups(worlds[0]);
    }
    HistoryKeepsOwnUrls(worlds, ks, i);
    HistoryKeepsOwnUrls(worlds, ks, j);
    assert SpecsOf(worlds[i].agents)[k] == SpecsOf(worlds[j].agents)[k];
  }

  /** No reconcile would change which agents have a URL. */
  ghost predicate AtRest(world: World) {
    forall k, world' :: IsReconcile(world, k, world') ==> Ups(world') == Ups(world)
  }

  lemma AtRestIsStable(world: World)
    ensures AtRest(world) <==> Stable(SpecsOf(world.agents), Able(world), Ups(world))
  {
    forall k
      ensures exists world' :: IsReconcile(world, k, world') && Ups(world') == Settle(SpecsOf(world.agents), Able(world), Ups(world), k)
    {
      var world' := SomeReconcile(world, k);
      ReconcileIsSettle(world, k, world');
    }
    forall k, world' | IsReconcile(world, k, world')
      ensures Ups(world') == Settle(SpecsOf(world.agents), Able(world), Ups(world), k)
    {
      ReconcileIsSettle(world, k, world');
    }
  }

  /**
    Convergence from a URL-free cluster: wherever reconciling comes to rest,
    and in any case after as many rounds as there are agents, exactly the
    least fixpoint of the agents that are able has a URL.
   */
  lemma ReconcilingReachesLeast(worlds: seq<World>, ks: seq<Key>, rounds: seq<seq<Key>>)
    requires IsHistory(worlds, ks) && Ups(worlds[0]) == {}
    requires AtRest(worlds[|ks|])
             || (ks == Flatten(rounds) && |rounds| >= |worlds[0].agents| && AreRounds(SpecsOf(worlds[0].agents), rounds))
    ensures Ups(worlds[|ks|]) == Least(SpecsOf(worlds[0].agents), Able(worlds[0]))
  {
    var specs := SpecsOf(worlds[0].agents);
    SpecsCount(worlds[0].agents);
    HistoryIsSettleAll(worlds, ks);
    AtRestIsStable(worlds[|ks|]);
    if AtRest(worlds[|ks|]) {
      RestIsLeast(specs, Able(worlds[0]), ks);
    } else {
      RoundsReachLeast(specs, Able(worlds[0]), rounds);
    }
  }

  lemma SpecsCount(agents: Agents)
    ensures SpecsOf(agents).Keys == agents.Keys && |SpecsOf(agents)| == |agents|
  {
    assert SpecsOf(agents).Keys == agents.Keys;
    assert |SpecsOf(agents)| == |SpecsOf(agents).Keys| == |agents.Keys| == |agents|;
  }

  /** Whatever gateways they find, reconciles of this world only come to rest in the least fixpoint. */
  ghost predicate HistoriesRestAtLeast(world: World) {
    forall worlds, ks | IsHistory(worlds, ks) && worlds[0] == world && AtRest(worlds[|ks|]) ::
      Ups(worlds[|ks|]) == Least(SpecsOf(world.agents), Able(world))
  }

  ghost predicate HistoriesOfRoundsReachLeast(world: World) {
    forall worlds, rounds | IsHistory(worlds, Flatten(rounds)) && worlds[0] == world
                            && |rounds| >= |world.agents| && AreRounds(SpecsOf(world.agents), rounds) ::
      Ups(worlds[|Flatten(rounds)|]) == Least(SpecsOf(world.agents), Able(world))
  }

  /** The agents that can still be up when reconciling this world comes to rest. */
  ghost function CanRemain(world: World): set<Key> {
    Remains(SpecsOf(world.agents), Able(world), Ups(world))
  }

  /**
    Convergence from any starting statuses: wherever reconciling comes to
    rest, and after as many rounds as agents, it is the least fixpoint,
    exactly when the agents that can remain up form no cycle.
   */
  lemma ReconcilingRecoversIff(world: World)
    ensures HistoriesRestAtLeast(world) <==> !HasCycle(SpecsOf(world.agents), CanRemain(world))
    ensures HistoriesOfRoundsReachLeast(world) <==> !HasCycle(SpecsOf(world.agents), CanRemain(world))
  {
    var specs, able, start := SpecsOf(world.agents), Able(world), Ups(world);
    SpecsCount(world.agents);
    RecoversIff(specs, able, start);
    if HasCycle(specs, CanRemain(world)) {
      var ks :| Stable(specs, able, SettleAll(specs, able, start, ks)) && SettleAll(specs, able, start, ks) != Least(specs, able);
      var worlds := SomeHistory(world, ks);
      HistoryIsSettleAll(worlds, ks);
      AtRestIsStable(worlds[|ks|]);
      var rounds :| |rounds| >= |specs| && AreRounds(specs, rounds) && SettleAll(specs, able, start, Flatten(rounds)) != Least(specs, able);
      var worlds' := SomeHistory(world, Flatten(rounds));
      HistoryIsSettleAll(worlds', Flatten(rounds));
    } else {
      AlwaysRestsMeansHistories(world);
      RoundsMeanHistories(world);
    }
  }

  lemma AlwaysRestsMeansHistories(world: World)
    requires AlwaysRestsAtLeast(SpecsOf(world.agents), Able(world), Ups(world))
    ensures HistoriesRestAtLeast(world)
  {
    forall worlds, ks | IsHistory(worlds, ks) && worlds[0] == world && AtRest(worlds[|ks|])
      ensures Ups(worlds[|ks|]) == Least(SpecsOf(world.agents), Able(world))
    {
      HistoryIsSettleAll(worlds, ks);
      AtRestIsStable(worlds[|ks|]);
    }
  }

  lemma RoundsMeanHistories(world: World)
    requires RoundsAlwaysReachLeast(SpecsOf(world.agents), Able(world), Ups(world))
    ensures HistoriesOfRoundsReachLeast(world)
  {
    SpecsCount(world.agents);
    forall worlds, rounds | IsHistory(worlds, Flatten(rounds)) && worlds[0] == world
                            && |rounds| >= |world.agents| && AreRounds(SpecsOf(world.agents), rounds)
      ensures Ups(worlds[|Flatten(rounds)|]) == Least(SpecsOf(world.agents), Able(world))
    {
      HistoryIsSettleAll(worlds, Flatten(rounds));
    }
  }

  lemma {:induction false} SomeHistory(world: World, ks: seq<Key>) returns (worlds: seq<World>)
    ensures IsHistory(worlds, ks) && worlds[0] == world
    decreases |ks|
  {
    if ks == [] {
      worlds := [world];
    } else {
      var n := |ks| - 1;
      var before := SomeHistory(world, ks[..n]);
      var last := SomeReconcile(before[n], ks[n]);
      worlds := before + [last];
      forall i | 0 <= i < |ks|
        ensures ReconcileAt(worlds, ks, i)
      {
        if i < n {
          assert ReconcileAt(before, ks[..n], i);
        }
      }
    }
  }

  /** A condition on the statuses at the start alone: none of the agents that have a URL lies on a cycle of references. */
  lemma ReconcilingRecovers(world: World)
    requires forall k <- Ups(world) :: !OnCycle(SpecsOf(world.agents), k)
    ensures HistoriesRestAtLeast(world) && HistoriesOfRoundsReachLeast(world)
  {
    SpecsCount(world.agents);
    RecoversWithoutCyclesAtStart(SpecsOf(world.agents), Able(world), Ups(world));
    AlwaysRestsMeansHistories(world);
    RoundsMeanHistories(world);
  }

  /** Where reconciling is at rest, the published URLs are the least fixpoint exactly when the agents that have one form no cycle. */
  lemma RestIsLeastIffNoCycleIsUp(world: World)
    requires AtRest(world)
    ensures Ups(world) == Least(SpecsOf(world.agents), Able(world)) <==> !HasCycle(SpecsOf(world.agents), Ups(world))
  {
    AtRestIsStable(world);
    StableIsLeastIffNoCycleIsUp(SpecsOf(world.agents), Able(world), Ups(world));
  }

  /** The two machines agree: where every agent is up to date, reconciling is at rest. */
  lemma UpToDateMeansAtRest(s: State)
    requires forall k <- s.world.agents :: UpToDate(s, k)
    ensures AtRest(s.world)
  {
    var specs, able, up := SpecsOf(s.world.agents), Able(s.world), Ups(s.world);
    forall k
      ensures k in up <==> Supported(specs, able, up, k)
    {
      if k in s.world.agents {
        var r :| MayResolve(s.world, k, s.world.agents[k].spec, r) && Follows(s, k, r);
        PublishesIffSupported(s.world, k, r);
      }
    }
    StableIffFixpoint(specs, able, up);
    AtRestIsStable(s.world);
  }

  /**
    The protocol, end to end: in every run, whatever changed and failed on
    the way, when nothing is queued or in flight any more, the published URLs
    are the least fixpoint for the specs, tools, gateways and configurations
    as they are then, exactly when the agents that are up form no cycle.
   */
  lemma QuietRunIsLeast(run: seq<State>, i: nat)
    requires IsRun(run) && i < |run|
    requires run[i].queue == {} && run[i].flights == map[]
    ensures
      var world := run[i].world;
      && AtRest(world)
      && (Ups(world) == Least(SpecsOf(world.agents), Able(world)) <==> !HasCycle(SpecsOf(world.agents), Ups(world)))
  {
    var s := run[i];
    forall k | k in s.world.agents
      ensures UpToDate(s, k)
    {
      NoLostWakeUp(run, i, k);
    }
    UpToDateMeansAtRest(s);
    RestIsLeastIffNoCycleIsUp(s.world);
  }
}
