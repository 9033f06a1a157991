/**
  What it means that an agent resolves, in terms of `WorldFacts`: when it does,
  and what it then finds.
 */
module ResolutionFacts {
  import opened Api
  import opened Resolution
  import opened WorldFacts
  import opened AgentResolvers

  /** No later declaration has this one's name. */
  predicate IsLastOfItsName(subs: seq<SubAgent>, i: int) {
    0 <= i < |subs| && forall j :: i < j < |subs| ==> subs[j].name != subs[i].name
  }

  /** Everything the agent looks up is there: configuration, URLs and gateway. */
  ghost predicate AllIsThere(world: World, k: Key, spec: AgentSpec) {
    && (exists config :: ConfigIs(world, config))
    && (forall s <- spec.subAgents :: HasUrl(world, k.namespace, s))
    && (forall t <- spec.tools :: HasToolUrl(world, k.namespace, t))
    && (exists gateway :: GatewayIs(world, k.namespace, spec.aiGatewayRef, gateway))
  }

  /** And the interaction types that count are set. */
  ghost predicate CanBeServed(world: World, k: Key, spec: AgentSpec) {
    AllIsThere(world, k, spec) && forall i :: IsLastOfItsName(spec.subAgents, i) ==> spec.subAgents[i].interactionType != ""
  }

  /** What the agent is served with. */
  ghost predicate IsServedWith(world: World, k: Key, spec: AgentSpec, r: Resolution)
    requires r.Resolved?
  {
    && SubAgentsFound(world, k.namespace, spec.subAgents, r.subAgents)
    && ToolsFound(world, k.namespace, spec.tools, r.tools)
    && GatewayIs(world, k.namespace, spec.aiGatewayRef, r.gateway)
    && ConfigIs(world, r.config)
  }

  lemma SubAgentPart(world: World, k: Key, spec: AgentSpec, answers: seq<Answer>)
    requires AreAnswers(world, k.namespace, spec, answers)
    ensures answers[1..1 + |spec.subAgents|] == SubAgentAnswers(world, k.namespace, spec.subAgents)
  {
    forall i | 0 <= i < |spec.subAgents|
      ensures answers[1 + i] == SubAgentAnswer(world, k.namespace, spec.subAgents[i])
    {
      assert MayAnswer(world, k.namespace, Plan(spec)[1 + i], answers[1 + i]);
    }
  }

  lemma ToolPart(world: World, k: Key, spec: AgentSpec, answers: seq<Answer>)
    requires AreAnswers(world, k.namespace, spec, answers)
    ensures
      var n, m := |spec.subAgents|, |spec.tools|;
      answers[1 + n..1 + n + m] == ToolAnswers(world, k.namespace, spec.tools)
  {
    var n, m := |spec.subAgents|, |spec.tools|;
    forall i | 0 <= i < m
      ensures answers[1 + n + i] == ToolAnswer(world, k.namespace, spec.tools[i])
    {
      assert MayAnswer(world, k.namespace, Plan(spec)[1 + n + i], answers[1 + n + i]);
    }
  }

  lemma EndParts(world: World, k: Key, spec: AgentSpec, answers: seq<Answer>)
    requires AreAnswers(world, k.namespace, spec, answers)
    ensures answers[0] == ConfigAnswer(world)
    ensures MayAnswer(world, k.namespace, AskGateway(spec.aiGatewayRef), answers[|answers| - 1])
  {
    assert MayAnswer(world, k.namespace, Plan(spec)[0], answers[0]);
    assert Plan(spec)[|answers| - 1] == AskGateway(spec.aiGatewayRef);
  }

  lemma InParts(answers: seq<Answer>, n: nat, m: nat, a: Answer)
    requires |answers| == n + m + 2
    ensures a in answers <==>
              a == answers[0] || a in answers[1..1 + n] || a in answers[1 + n..1 + n + m] || a == answers[1 + n + m]
  {
    assert answers == [answers[0]] + answers[1..1 + n] + answers[1 + n..1 + n + m] + [answers[1 + n + m]];
  }

  /** The answers of a whole reconcile fail exactly when those of some kind do. */
  lemma FailuresByKind(world: World, k: Key, spec: AgentSpec, answers: seq<Answer>)
    requires AreAnswers(world, k.namespace, spec, answers)
    ensures NotResolved in answers <==>
              || ConfigAnswer(world) == NotResolved
              || NotResolved in SubAgentAnswers(world, k.namespace, spec.subAgents)
              || NotResolved in ToolAnswers(world, k.namespace, spec.tools)
              || answers[|answers| - 1] == NotResolved
  {
    SubAgentPart(world, k, spec, answers);
    ToolPart(world, k, spec, answers);
    EndParts(world, k, spec, answers);
    InParts(answers, |spec.subAgents|, |spec.tools|, NotResolved);
  }

  /** What a reconcile makes of answers none of which failed, in terms of the kinds. */
  lemma OutcomeByKind(world: World, k: Key, spec: AgentSpec, answers: seq<Answer>)
    requires AreAnswers(world, k.namespace, spec, answers) && NotResolved !in answers
    ensures
      var subAgents := SubAgentMap(spec.subAgents, SubAgentAnswers(world, k.namespace, spec.subAgents));
      var tools := ToolMap(spec.tools, ToolAnswers(world, k.namespace, spec.tools));
      var last := answers[|answers| - 1];
      && last.FoundGateway? && ConfigAnswer(world).Config?
      && Outcome(spec, answers) == if !EnvironmentBuildable(subAgents) then Failed
                                   else Resolved(subAgents, tools, last.gateway, ConfigAnswer(world).config)
  {
    SubAgentPart(world, k, spec, answers);
    ToolPart(world, k, spec, answers);
    EndParts(world, k, spec, answers);
    assert answers[0] in answers && answers[|answers| - 1] in answers;
  }

  lemma SubAgentFailure(world: World, namespace: string, subs: seq<SubAgent>)
    ensures NotResolved in SubAgentAnswers(world, namespace, subs) <==> exists s <- subs :: !HasUrl(world, namespace, s)
  {
    var answers := SubAgentAnswers(world, namespace, subs);
    forall i | 0 <= i < |subs|
      ensures answers[i] == NotResolved <==> !HasUrl(world, namespace, subs[i])
    {
      UnresolvedHasNoUrl(world, namespace, subs[i]);
    }
    if s :| s in subs && !HasUrl(world, namespace, s) {
      var i :| 0 <= i < |subs| && subs[i] == s;
      assert answers[i] in answers;
    }
  }

  lemma ToolFailure(world: World, namespace: string, tools: seq<AgentTool>)
    ensures NotResolved in ToolAnswers(world, namespace, tools) <==> exists t <- tools :: !HasToolUrl(world, namespace, t)
  {
    var answers := ToolAnswers(world, namespace, tools);
    forall i | 0 <= i < |tools|
      ensures answers[i] == NotResolved <==> !HasToolUrl(world, namespace, tools[i])
    {
      UnresolvedToolHasNoUrl(world, namespace, tools[i]);
    }
    if t :| t in tools && !HasToolUrl(world, namespace, t) {
      var i :| 0 <= i < |tools| && tools[i] == t;
      assert answers[i] in answers;
    }
  }

  lemma ConfigFailure(world: World)
    ensures ConfigAnswer(world) == NotResolved <==> forall config :: !ConfigIs(world, config)
  {
    forall config
      ensures ResolveRuntimeConfig(world) == Some(config) <==> ConfigIs(world, config)
    {
      ResolvedConfigIs(world, config);
    }
    if ResolveRuntimeConfig(world).Some? {
      assert ConfigIs(world, ResolveRuntimeConfig(world).value);
    }
  }

  lemma GatewayFailure(world: World, namespace: string, ref: Option<ObjectReference>, a: Answer)
    requires MayAnswer(world, namespace, AskGateway(ref), a)
    ensures a == NotResolved <==> forall gateway :: !GatewayIs(world, namespace, ref, gateway)
    ensures a != NotResolved ==> a.FoundGateway? && GatewayIs(world, namespace, ref, a.gateway)
  {
    forall gateway
      ensures MayFindGateway(world, ref, namespace, Some(gateway)) <==> GatewayIs(world, namespace, ref, gateway)
    {
      FoundGatewayIs(world, namespace, ref, gateway);
    }
    if a != NotResolved {
      assert MayFindGateway(world, ref, namespace, Some(a.gateway));
    }
  }

  /** With a URL for every sub-agent, the types that reach the environment are those of the last declarations. */
  lemma TypesOfTheLast(world: World, namespace: string, subs: seq<SubAgent>)
    requires forall s <- subs :: HasUrl(world, namespace, s)
    ensures EnvironmentBuildable(SubAgentMap(subs, SubAgentAnswers(world, namespace, subs)))
            <==> forall i :: IsLastOfItsName(subs, i) ==> subs[i].interactionType != ""
  {
    var resolved := SubAgentMap(subs, SubAgentAnswers(world, namespace, subs));
    SubAgentsAreFound(world, namespace, subs);
    forall i, n | n in resolved && IsSubAgentEntry(world, namespace, subs, i, n, resolved[n])
      ensures IsLastOfItsName(subs, i)
    {
      forall j | i < j < |subs| && subs[j].name == n
        ensures !HasUrl(world, namespace, subs[j])
      {
      }
      assert forall j :: i < j < |subs| ==> subs[j] in subs;
    }
    forall i | IsLastOfItsName(subs, i)
      ensures subs[i].name in resolved && resolved[subs[i].name].interactionType == subs[i].interactionType
    {
      assert subs[i] in subs;
      var n := subs[i].name;
      var j :| IsSubAgentEntry(world, namespace, subs, j, n, resolved[n]);
      assert IsLastOfItsName(subs, j);
    }
    forall n | n in resolved
      ensures exists i :: IsLastOfItsName(subs, i) && resolved[n].interactionType == subs[i].interactionType
    {
      var i :| IsSubAgentEntry(world, namespace, subs, i, n, resolved[n]);
      assert IsLastOfItsName(subs, i);
    }
  }

  lemma NoFailureIff(world: World, k: Key, spec: AgentSpec, answers: seq<Answer>)
    requires AreAnswers(world, k.namespace, spec, answers)
    ensures NotResolved !in answers <==> AllIsThere(world, k, spec)
  {
    FailuresByKind(world, k, spec, answers);
    EndParts(world, k, spec, answers);
    ConfigFailure(world);
    SubAgentFailure(world, k.namespace, spec.subAgents);
    ToolFailure(world, k.namespace, spec.tools);
    GatewayFailure(world, k.namespace, spec.aiGatewayRef, answers[|answers| - 1]);
  }

  lemma OutcomeIsServed(world: World, k: Key, spec: AgentSpec, answers: seq<Answer>)
    requires AreAnswers(world, k.namespace, spec, answers) && Outcome(spec, answers).Resolved?
    ensures IsServedWith(world, k, spec, Outcome(spec, answers))
  {
    OutcomeByKind(world, k, spec, answers);
    EndParts(world, k, spec, answers);
    SubAgentsAreFound(world, k.namespace, spec.subAgents);
    ToolsAreFound(world, k.namespace, spec.tools);
    GatewayFailure(world, k.namespace, spec.aiGatewayRef, answers[|answers| - 1]);
    ResolvedConfigIs(world, ConfigAnswer(world).config);
  }

  lemma OutcomeResolvesIff(world: World, k: Key, spec: AgentSpec, answers: seq<Answer>)
    requires AreAnswers(world, k.namespace, spec, answers)
    ensures Outcome(spec, answers).Resolved? <==> CanBeServed(world, k, spec)
  {
    NoFailureIff(world, k, spec, answers);
    if NotResolved !in answers {
      OutcomeByKind(world, k, spec, answers);
      TypesOfTheLast(world, k.namespace, spec.subAgents);
    }
  }

  /**
    An agent resolves exactly when everything it needs is there, and then it
    is served with just what the declarations ask for and the world has.
   */
  lemma ResolvesIffServed(world: World, k: Key, spec: AgentSpec, r: Resolution)
    requires MayResolve(world, k, spec, r)
    ensures r.Resolved? <==> CanBeServed(world, k, spec)
    ensures r.Resolved? ==> IsServedWith(world, k, spec, r)
  {
    var answers :| AreAnswers(world, k.namespace, spec, answers) && r == Outcome(spec, answers);
    OutcomeResolvesIff(world, k, spec, answers);
    if r.Resolved? {
      OutcomeIsServed(world, k, spec, answers);
    }
  }
}
