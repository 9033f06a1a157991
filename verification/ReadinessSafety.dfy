/**
  Safety of readiness over all runs of the agent controller: who can ever
  publish a URL while the specs of the agents stay as they are.
 */
module ReadinessSafety {
  import opened Api
  import opened AgentUrls
  import opened Resolution
  import opened Readiness
  import opened AgentProtocol

  function A2AAgents(specs: Specs): set<Key> {
    set k | k in specs && HasA2A(specs[k])
  }

  /** A run during which no agent is created, deleted or edited; everything else may change. */
  ghost predicate IsFixedRun(run: seq<State>, specs: Specs) {
    && IsRun(run)
    && forall i :: 0 <= i < |run| ==> SpecsOf(run[i].world.agents) == specs
  }

  ghost predicate UrlFree(agents: Agents) {
    forall k <- agents :: agents[k].status.url == ""
  }

  ghost predicate OnlyThese(agents: Agents, s: set<Key>) {
    forall k <- agents :: agents[k].status.url != "" ==> k in s
  }

  /** An answer for a sub-agent that did not fail came from a remote agent, or from one of these. */
  ghost predicate SafeAnswer(k: Key, q: Query, a: Answer, s: set<Key>) {
    q.AskSubAgent? && a != NotResolved ==>
      || q.subAgent.url != ""
      || (q.subAgent.agentRef.Some? && RefKey(q.subAgent.agentRef.value, k.namespace) in s)
  }

  ghost predicate SafeFlight(specs: Specs, k: Key, f: Flight, s: set<Key>) {
    && k in specs && f.spec == specs[k]
    && |f.answers| <= |Plan(f.spec)|
    && (forall i :: 0 <= i < |f.answers| ==> SafeAnswer(k, Plan(f.spec)[i], f.answers[i], s))
    && (f.deployed ==> Complete(f) && Outcome(f.spec, f.answers).Resolved?)
  }

  ghost predicate Safe(specs: Specs, st: State, s: set<Key>) {
    && SpecsOf(st.world.agents) == specs
    && OnlyThese(st.world.agents, s)
    && forall k <- st.flights :: SafeFlight(specs, k, st.flights[k], s)
  }

  lemma AskIsSafe(world: World, k: Key, q: Query, a: Answer, s: set<Key>)
    requires OnlyThese(world.agents, s) && MayAnswer(world, k.namespace, q, a)
    ensures SafeAnswer(k, q, a, s)
  {
  }

  lemma PlanOfSubAgent(spec: AgentSpec, s: SubAgent) returns (i: nat)
    requires s in spec.subAgents
    ensures i < |Plan(spec)| && Plan(spec)[i] == AskSubAgent(s)
  {
    var j :| 0 <= j < |spec.subAgents| && spec.subAgents[j] == s;
    i := 1 + j;
  }

  /** A reconcile that ends ready was supported by the agents its answers came from. */
  lemma ReadyIsSupported(specs: Specs, k: Key, f: Flight, s: set<Key>)
    requires SafeFlight(specs, k, f, s) && f.deployed && CardUrl(k, f.spec) != ""
    ensures Supported(specs, A2AAgents(specs), s, k)
  {
    CardUrlIffA2A(k, f.spec);
    forall sub | sub in specs[k].subAgents
      ensures sub.url != "" || (sub.agentRef.Some? && RefKey(sub.agentRef.value, k.namespace) in s)
    {
      var i := PlanOfSubAgent(f.spec, sub);
      assert f.answers[i] != NotResolved;
      assert SafeAnswer(k, Plan(f.spec)[i], f.answers[i], s);
    }
  }

  lemma SpecsKeep(agents: Agents, specs: Specs, k: Key)
    requires SpecsOf(agents) == specs
    ensures k in agents <==> k in specs
    ensures k in agents ==> agents[k].spec == specs[k]
  {
    assert k in SpecsOf(agents) <==> k in specs;
  }

  /** Changing an agent without changing the specs changes no URL. */
  lemma FixedChangeKeepsUrls(agents: Agents, k: Key, spec: Option<AgentSpec>, s: set<Key>)
    requires OnlyThese(agents, s)
    ensures OnlyThese(Put(agents, k, WithSpec(agents, k, spec)), s)
  {
  }

  lemma AskKeepsSafe(specs: Specs, st: State, s: set<Key>, k: Key, answer: Answer)
    requires Safe(specs, st, s) && Enabled(st, AskNext(k, answer))
    ensures Safe(specs, Apply(st, AskNext(k, answer)), s)
  {
    var f := st.flights[k];
    var f' := Apply(st, AskNext(k, answer)).flights[k];
    AskIsSafe(st.world, k, Plan(f.spec)[|f.answers|], answer, s);
    forall i | 0 <= i < |f'.answers|
      ensures SafeAnswer(k, Plan(f'.spec)[i], f'.answers[i], s)
    {
      if i < |f.answers| {
        assert SafeAnswer(k, Plan(f.spec)[i], f.answers[i], s);
      }
    }
    assert SafeFlight(specs, k, f', s);
  }

  lemma WriteKeepsSafe(specs: Specs, able: set<Key>, st: State, s: set<Key>, step: Step)
    requires Safe(specs, st, s) && Enabled(st, step)
    requires step.WriteReady? || step.WriteNotReady? || step.Fails?
    requires SupportClosed(specs, able, s) && able == A2AAgents(specs)
    ensures OnlyThese(Apply(st, step).world.agents, s)
  {
    if step.WriteReady? {
      var f := st.flights[step.k];
      if CardUrl(step.k, f.spec) != "" {
        ReadyIsSupported(specs, step.k, f, s);
        assert Supported(specs, able, s, step.k);
      }
    }
  }

  lemma FlightStepKeepsSafe(specs: Specs, st: State, s: set<Key>, step: Step)
    requires Safe(specs, st, s) && Enabled(st, step)
    requires step.Start? || step.Deploy?
    ensures Safe(specs, Apply(st, step), s)
  {
    SpecsKeep(st.world.agents, specs, step.k);
  }

  lemma WriteStepKeepsSafe(specs: Specs, able: set<Key>, st: State, s: set<Key>, step: Step)
    requires Safe(specs, st, s) && Enabled(st, step)
    requires step.WriteReady? || step.WriteNotReady? || step.Fails?
    requires SupportClosed(specs, able, s) && able == A2AAgents(specs)
    requires SpecsOf(Apply(st, step).world.agents) == specs
    ensures Safe(specs, Apply(st, step), s)
  {
    WriteKeepsSafe(specs, able, st, s, step);
    assert Apply(st, step).flights == st.flights - {step.k};
  }

  lemma StepKeepsSafe(specs: Specs, able: set<Key>, st: State, st': State, s: set<Key>)
    requires Safe(specs, st, s) && Next(st, st') && SpecsOf(st'.world.agents) == specs
    requires SupportClosed(specs, able, s) && able == A2AAgents(specs)
    ensures Safe(specs, st', s)
  {
    var step :| Enabled(st, step) && st' == Apply(st, step);
    if step.AskNext? {
      AskKeepsSafe(specs, st, s, step.k, step.answer);
    } else if step.Start? || step.Deploy? {
      FlightStepKeepsSafe(specs, st, s, step);
    } else if step.WriteReady? || step.WriteNotReady? || step.Fails? {
      WriteStepKeepsSafe(specs, able, st, s, step);
    } else {
      OtherStepKeepsSafe(specs, st, s, step);
    }
  }

  lemma OtherStepKeepsSafe(specs: Specs, st: State, s: set<Key>, step: Step)
    requires Safe(specs, st, s) && Enabled(st, step)
    requires !step.AskNext? && !step.Start? && !step.Deploy? && !step.WriteReady? && !step.WriteNotReady? && !step.Fails?
    requires SpecsOf(Apply(st, step).world.agents) == specs
    ensures Safe(specs, Apply(st, step), s)
  {
    if step.ChangeAgent? {
      FixedChangeKeepsUrls(st.world.agents, step.k, step.spec, s);
    }
    assert Apply(st, step).flights == st.flights;
  }

  lemma {:induction false} RunIsSafe(run: seq<State>, specs: Specs, able: set<Key>, s: set<Key>, i: nat)
    requires IsFixedRun(run, specs) && OnlyThese(run[0].world.agents, s) && i < |run|
    requires SupportClosed(specs, able, s) && able == A2AAgents(specs)
    ensures Safe(specs, run[i], s)
    decreases i
  {
    if i > 0 {
      RunIsSafe(run, specs, able, s, i - 1);
      assert SpecsOf(run[i].world.agents) == specs;
      assert StepAt(run, i - 1);
      StepKeepsSafe(specs, able, run[i - 1], run[i], s);
    }
  }

  /**
    Readiness safety.  From a URL-free cluster with fixed specs, whatever the
    order of reconciles and look-ups, the failures and the changes of tools,
    gateways and configurations, only agents of the least fixpoint ever have
    a URL in their status.
   */
  lemma OnlyLeastPublishes(run: seq<State>, specs: Specs, i: nat, k: Key)
    requires IsFixedRun(run, specs) && UrlFree(run[0].world.agents) && i < |run|
    requires k in run[i].world.agents && run[i].world.agents[k].status.url != ""
    ensures k in Least(specs, A2AAgents(specs))
  {
    LeastIsClosed(specs, A2AAgents(specs));
    RunIsSafe(run, specs, A2AAgents(specs), Least(specs, A2AAgents(specs)), i);
  }

  /** So an agent on a cycle of references, or above one, never publishes a URL. */
  lemma CyclicAgentsNeverPublish(run: seq<State>, specs: Specs, p: seq<Key>, j: nat, i: nat)
    requires IsFixedRun(run, specs) && UrlFree(run[0].world.agents) && i < |run|
    requires IsPath(specs, p) && ComesBack(p) && j < |p|
    requires p[j] in run[i].world.agents
    ensures run[i].world.agents[p[j]].status.url == ""
  {
    CyclesNeverComeUp(specs, A2AAgents(specs), p);
    if run[i].world.agents[p[j]].status.url != "" {
      OnlyLeastPublishes(run, specs, i, p[j]);
    }
  }
}
