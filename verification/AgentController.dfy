/**
  One reconcile of an agent from beginning to end, in the controller's form:
  the look-ups in stages that give up on the first failing one, the two
  objects changed in place, and the status assigned in place at the end.
 */
module AgentController {
  import opened Api
  import opened Collections
  import opened AgentUrls
  import opened Resolution
  import opened AgentResolvers
  import opened AgentProtocol
  import opened AgentDeployment
  import opened Delivery
  import D = Deployment

  /** What a list call answers: everything in the namespace, in any order. */
  ghost predicate Lists<V>(listed: seq<(Key, V)>, store: map<Key, V>, namespace: string) {
    IsOrder(listed, InNamespace(store, namespace).Items)
  }

  lemma ListSize<V>(listed: seq<(Key, V)>, store: map<Key, V>, namespace: string)
    requires Lists(listed, store, namespace)
    ensures |listed| == |InNamespace(store, namespace)|
    ensures listed != [] ==> listed[0].0 in InNamespace(store, namespace) && InNamespace(store, namespace)[listed[0].0] == listed[0].1
  {
    OrderSize(listed, InNamespace(store, namespace).Items);
    if listed != [] {
      assert listed[0] in listed;
    }
  }

  /** Of a list of one it does not matter how it was picked. */
  lemma OnlyOneToPick<V>(listed: seq<(Key, V)>, store: map<Key, V>, namespace: string)
    requires Lists(listed, store, namespace) && |listed| == 1
    ensures InNamespace(store, namespace) != map[] && listed[0] == Pick(InNamespace(store, namespace))
  {
    ListSize(listed, store, namespace);
    var candidates := InNamespace(store, namespace);
    SingletonHas(candidates.Items, listed[0], Pick(candidates));
  }

  /** Fails without an operator namespace, and on more than one configuration. */
  method GetAgentRuntimeConfiguration(world: World, listed: seq<(Key, RuntimeConfig)>) returns (r: Option<Option<RuntimeConfig>>)
    requires Lists(listed, world.configs, world.operatorNamespace)
    ensures r == ResolveRuntimeConfig(world)
  {
    ListSize(listed, world.configs, world.operatorNamespace);
    if world.operatorNamespace == "" {
      return None;
    }
    if |listed| == 0 {
      return Some(None);
    }
    if |listed| > 1 {
      return None;
    }
    OnlyOneToPick(listed, world.configs, world.operatorNamespace);
    return Some(Some(listed[0].1));
  }

  /** Without a reference, the gateway that the list happens to begin with. */
  method ResolveGateway(world: World, spec: AgentSpec, namespace: string, listed: seq<(Key, Gateway)>)
    returns (r: Option<Option<(Key, Gateway)>>)
    requires Lists(listed, world.gateways, DEFAULT_AI_GATEWAY_NAMESPACE)
    ensures MayFindGateway(world, spec.aiGatewayRef, namespace, r)
    ensures spec.aiGatewayRef.None? ==> r == Some(if listed == [] then None else Some(listed[0]))
  {
    ListSize(listed, world.gateways, DEFAULT_AI_GATEWAY_NAMESPACE);
    if spec.aiGatewayRef.Some? {
      var k := RefKey(spec.aiGatewayRef.value, namespace);
      if k !in world.gateways {
        return None;
      }
      return Some(Some((k, world.gateways[k])));
    }
    if |listed| == 0 {
      return Some(None);
    }
    return Some(Some(listed[0]));
  }

  /** The answers of a whole reconcile, stage by stage. */
  ghost function StageAnswers(world: World, k: Key, spec: AgentSpec, gateway: Option<Option<(Key, Gateway)>>): seq<Answer> {
    [ConfigAnswer(world)]
    + SubAgentAnswers(world, k.namespace, spec.subAgents)
    + ToolAnswers(world, k.namespace, spec.tools)
    + [if gateway.None? then NotResolved else FoundGateway(gateway.value)]
  }

  lemma StagesAreAnswers(world: World, k: Key, spec: AgentSpec, gateway: Option<Option<(Key, Gateway)>>)
    requires MayFindGateway(world, spec.aiGatewayRef, k.namespace, gateway)
    ensures AreAnswers(world, k.namespace, spec, StageAnswers(world, k, spec, gateway))
  {
    var all := StageAnswers(world, k, spec, gateway);
    forall i | 0 <= i < |all|
      ensures MayAnswer(world, k.namespace, Plan(spec)[i], all[i])
    {
    }
  }

  /** All stages succeed exactly when no answer is a failure. */
  lemma StagesDecide(world: World, k: Key, spec: AgentSpec, gateway: Option<Option<(Key, Gateway)>>)
    ensures NotResolved !in StageAnswers(world, k, spec, gateway) <==>
              && ResolveRuntimeConfig(world).Some?
              && UnresolvedSubAgents(world, k.namespace, spec.subAgents) == []
              && UnresolvedTools(world, k.namespace, spec.tools) == []
              && gateway.Some?
  {
    SubAgentStage(world, k, spec);
    ToolStage(world, k, spec);
  }

  /** What the stages found is what their answers resolve to. */
  lemma StagesResolve(world: World, k: Key, spec: AgentSpec, gateway: Option<Option<(Key, Gateway)>>)
    ensures
      var all := StageAnswers(world, k, spec, gateway);
      var subAgents := SubAgentMap(spec.subAgents, SubAgentAnswers(world, k.namespace, spec.subAgents));
      var tools := ToolMap(spec.tools, ToolAnswers(world, k.namespace, spec.tools));
      Outcome(spec, all)
      == if NotResolved in all || !EnvironmentBuildable(subAgents) then Failed
         else Resolved(subAgents, tools, gateway.value, ResolveRuntimeConfig(world).value)
  {
    var n, m := |spec.subAgents|, |spec.tools|;
    var all := StageAnswers(world, k, spec, gateway);
    assert all[1..1 + n] == SubAgentAnswers(world, k.namespace, spec.subAgents);
    assert all[1 + n..1 + n + m] == ToolAnswers(world, k.namespace, spec.tools);
    assert all[0] in all && all[1 + n + m] in all;
  }

  lemma SubAgentStage(world: World, k: Key, spec: AgentSpec)
    ensures NotResolved !in SubAgentAnswers(world, k.namespace, spec.subAgents)
            <==> UnresolvedSubAgents(world, k.namespace, spec.subAgents) == []
  {
    var answers := SubAgentAnswers(world, k.namespace, spec.subAgents);
    if NotResolved !in answers {
      forall s | s in spec.subAgents
        ensures ResolveSubAgentUrl(world, s, k.namespace).Some?
      {
        var i :| 0 <= i < |spec.subAgents| && spec.subAgents[i] == s;
        assert answers[i] in answers;
      }
    }
  }

  lemma ToolStage(world: World, k: Key, spec: AgentSpec)
    ensures NotResolved !in ToolAnswers(world, k.namespace, spec.tools)
            <==> UnresolvedTools(world, k.namespace, spec.tools) == []
  {
    var answers := ToolAnswers(world, k.namespace, spec.tools);
    if NotResolved !in answers {
      forall t | t in spec.tools
        ensures ResolveToolUrl(world, t, k.namespace).Some?
      {
        var i :| 0 <= i < |spec.tools| && spec.tools[i] == t;
        assert answers[i] in answers;
      }
    }
  }

  /** A stage that failed decides the whole reconcile, whatever the later ones would have found. */
  lemma FailedStageDecides(world: World, k: Key, spec: AgentSpec)
    requires || ResolveRuntimeConfig(world).None?
             || UnresolvedSubAgents(world, k.namespace, spec.subAgents) != []
             || UnresolvedTools(world, k.namespace, spec.tools) != []
             || MayFindGateway(world, spec.aiGatewayRef, k.namespace, None)
    ensures MayResolve(world, k, spec, Failed)
  {
    var a := SomeAnswer(world, k.namespace, AskGateway(spec.aiGatewayRef));
    var gateway := if a == NotResolved then None else Some(a.gateway);
    StagesAreAnswers(world, k, spec, gateway);
    StagesDecide(world, k, spec, gateway);
    StagesResolve(world, k, spec, gateway);
  }

  /** The Service is there exactly while the agent has protocols. */
  method EnsureService(input: D.Input, existing: Option<D.ServiceState>) returns (service: Option<D.ServiceState>)
    ensures service == if input.ports == [] then None
                       else Some(D.MutatedService(if existing.Some? then existing.value else D.NewService, input))
    ensures service.Some? ==> D.ServiceHas(if existing.Some? then existing.value else D.NewService, input, service.value)
  {
    if |input.ports| == 0 {
      return None;
    }
    var target := new D.ServiceObject(if existing.Some? then existing.value else D.NewService);
    target.Mutate(input);
    D.MutatedServiceHas(if existing.Some? then existing.value else D.NewService, input);
    return Some(target.State());
  }

  class AgentResource {
    const key: Key
    const spec: AgentSpec
    var status: AgentStatus

    constructor (key: Key, agent: Agent)
      ensures this.key == key && spec == agent.spec && status == agent.status
    {
      this.key, spec, status := key, agent.spec, agent.status;
    }

    method UpdateAgentStatusReady(gateway: Option<(Key, Gateway)>)
      modifies this
      ensures status == ReadyStatus(key, spec, gateway)
    {
      status := status.(url := CardUrl(key, spec));
      if gateway.Some? {
        status := status.(aiGatewayRef := Some(gateway.value.0));
      } else {
        status := status.(aiGatewayRef := None);
      }
      status := status.(ready := Some(true));
    }

    method UpdateAgentStatusNotReady()
      modifies this
      ensures status == NotReadyStatus
    {
      status := status.(url := "");
      status := status.(aiGatewayRef := None);
      status := status.(ready := Some(false));
    }

    /** The look-ups in stages, giving up after the first stage that fails. */
    method LookUp(world: World, configs: seq<(Key, RuntimeConfig)>, gateways: seq<(Key, Gateway)>) returns (found: Option<Resolution>)
      requires Lists(configs, world.configs, world.operatorNamespace)
      requires Lists(gateways, world.gateways, DEFAULT_AI_GATEWAY_NAMESPACE)
      ensures found.None? ==> MayResolve(world, key, spec, Failed)
      ensures found.Some? ==>
                && found.value.Resolved?
                && MayResolve(world, key, spec, if EnvironmentBuildable(found.value.subAgents) then found.value else Failed)
                && (spec.aiGatewayRef.None? ==> found.value.gateway == if gateways == [] then None else Some(gateways[0]))
    {
      var config := GetAgentRuntimeConfiguration(world, configs);
      if config.None? {
        FailedStageDecides(world, key, spec);
        return None;
      }
      var subAgents, issues := ResolveAllSubAgents(world, key, spec);
      if issues != [] {
        FailedStageDecides(world, key, spec);
        return None;
      }
      var tools, toolIssues := ResolveAllTools(world, key, spec);
      if toolIssues != [] {
        FailedStageDecides(world, key, spec);
        return None;
      }
      var gateway := ResolveGateway(world, spec, key.namespace, gateways);
      if gateway.None? {
        FailedStageDecides(world, key, spec);
        return None;
      }
      StagesAreAnswers(world, key, spec, gateway);
      StagesDecide(world, key, spec, gateway);
      StagesResolve(world, key, spec, gateway);
      return Some(Resolved(subAgents, tools, gateway.value, config.value));
    }

    /** Looks up, then changes Deployment and Service.  A failure leaves both as they were. */
    method ReconcileAgent(world: World, configs: seq<(Key, RuntimeConfig)>, gateways: seq<(Key, Gateway)>, before: D.Objects)
      returns (r: Resolution, after: D.Objects, env: seq<EnvVar>)
      requires Lists(configs, world.configs, world.operatorNamespace)
      requires Lists(gateways, world.gateways, DEFAULT_AI_GATEWAY_NAMESPACE)
      ensures MayResolve(world, key, spec, r)
      ensures match r
              case Failed => after == before
              case Resolved(_, _, gateway, config) =>
                && (spec.aiGatewayRef.None? ==> gateway == if gateways == [] then None else Some(gateways[0]))
                && IsEnvironment(key, spec, r, env)
                && after == D.After(before, D.Reconcile(InputOf(key, spec, config, env)))
    {
      var found := LookUp(world, configs, gateways);
      if found.None? {
        return Failed, before, [];
      }
      var envVars, deployment := EnsureDeployment(key, spec, found.value, before.deployment);
      if deployment.None? {
        return Failed, before, [];
      }
      var service := EnsureService(InputOf(key, spec, found.value.config, envVars), before.service);
      return found.value, D.Objects(deployment, service), envVars;
    }

    /**
      The whole reconcile: afterwards the status is one that the world calls
      for, and so are the Deployment and the Service if it resolves.
     */
    method Reconcile(world: World, configs: seq<(Key, RuntimeConfig)>, gateways: seq<(Key, Gateway)>, before: D.Objects)
      returns (r: Resolution, after: D.Objects, env: seq<EnvVar>)
      requires Lists(configs, world.configs, world.operatorNamespace)
      requires Lists(gateways, world.gateways, DEFAULT_AI_GATEWAY_NAMESPACE)
      modifies this
      ensures MayResolve(world, key, spec, r) && status == StatusOf(key, spec, r)
      ensures match r
              case Failed => after == before
              case Resolved(_, _, gateway, config) =>
                && (spec.aiGatewayRef.None? ==> gateway == if gateways == [] then None else Some(gateways[0]))
                && IsEnvironment(key, spec, r, env)
                && after == D.After(before, D.Reconcile(InputOf(key, spec, config, env)))
      ensures Delivers(world, key, spec, r, before, after, status)
    {
      r, after, env := ReconcileAgent(world, configs, gateways, before);
      ReconcileDelivers(world, key, spec, r, env, before);
      if r.Failed? {
        UpdateAgentStatusNotReady();
      } else {
        UpdateAgentStatusReady(r.gateway);
      }
    }
  }
}
