/**
  What a reconcile delivers, from the world it saw to the objects and the
  status it left behind, in terms of specs and statuses alone.
 */
module Delivery {
  import opened Api
  import opened AgentUrls
  import opened Resolution
  import opened WorldFacts
  import opened ResolutionFacts
  import opened AgentConfig
  import opened AgentEnvironment
  import opened AgentDeployment
  import opened AgentProtocol
  import D = Deployment

  // ---------------------------------------------------------------- the documents

  /**
    The document holds each declared sub-agent under its sanitized name, with
    the URL that it has in this world and its interaction type, and nothing
    else; of names that sanitize to one it holds a declaration that is the
    last of its name.
   */
  ghost predicate SubAgentsAreIn(world: World, namespace: string, subs: seq<SubAgent>, doc: map<string, ResolvedSubAgent>) {
    && (forall s <- subs :: exists key <- doc :: IsSanitizedForm(s.name, key))
    && forall key <- doc :: exists i ::
         && IsLastOfItsName(subs, i) && IsSanitizedForm(subs[i].name, key)
         && GivesUrl(world, namespace, subs[i], doc[key].url) && doc[key].interactionType == subs[i].interactionType
  }

  lemma DocumentHoldsSubAgents(world: World, namespace: string, subs: seq<SubAgent>, resolved: map<string, ResolvedSubAgent>,
                               doc: map<string, ResolvedSubAgent>)
    requires SubAgentsFound(world, namespace, subs, resolved) && IsDocument(resolved, doc)
    requires forall s <- subs :: HasUrl(world, namespace, s)
    ensures SubAgentsAreIn(world, namespace, subs, doc)
  {
    forall s | s in subs
      ensures exists key <- doc :: IsSanitizedForm(s.name, key)
    {
      SanitizedHasTheForm(s.name);
      assert Sanitized(s.name) in SanitizedNames(resolved.Keys);
    }
    forall key | key in doc
      ensures exists i ::
                && IsLastOfItsName(subs, i) && IsSanitizedForm(subs[i].name, key)
                && GivesUrl(world, namespace, subs[i], doc[key].url) && doc[key].interactionType == subs[i].interactionType
    {
      var n :| n in resolved && Sanitized(n) == key && doc[key] == resolved[n];
      SanitizedHasTheForm(n);
      var i :| IsSubAgentEntry(world, namespace, subs, i, n, resolved[n]);
      assert forall j :: i < j < |subs| ==> subs[j] in subs;
      assert IsLastOfItsName(subs, i);
    }
  }

  /** The two documents say where sub-agents and tools are, unless the user has an entry of that name. */
  ghost predicate DocumentsSay(world: World, k: Key, spec: AgentSpec, env: seq<EnvVar>) {
    && ("SUB_AGENTS" in Names(spec.env)
        || exists doc :: EnvVar("SUB_AGENTS", SubAgentsJson(doc)) in env && SubAgentsAreIn(world, k.namespace, spec.subAgents, doc))
    && ("AGENT_TOOLS" in Names(spec.env)
        || exists tools :: EnvVar("AGENT_TOOLS", ToolsJson(tools)) in env && ToolsFound(world, k.namespace, spec.tools, tools))
  }

  lemma EnvironmentHoldsDocuments(world: World, k: Key, spec: AgentSpec, r: Resolution, env: seq<EnvVar>)
    requires r.Resolved? && CanBeServed(world, k, spec) && IsServedWith(world, k, spec, r) && EnvironmentServes(k, spec, r, env)
    ensures DocumentsSay(world, k, spec, env)
  {
    var url :| GatewayUrlIs(r.gateway, url) && EnvironmentSays(k, spec, r.subAgents, r.tools, url, env);
    assert GivesDocuments(r.subAgents, r.tools, env, spec.env);
    var doc :| IsDocument(r.subAgents, doc) && Gives(env, spec.env, "SUB_AGENTS", SubAgentsJson(doc));
    DocumentHoldsSubAgents(world, k.namespace, spec.subAgents, r.subAgents, doc);
  }

  // ---------------------------------------------------------------- the published URL

  /** The URL leads to what is there: through the Service's port for it, to what the agent container is probed at. */
  ghost predicate LeadsToTheAgent(k: Key, url: string, o: D.Objects) {
    && o.deployment.Some? && o.service.Some?
    && exists c, probe ::
         && D.IsFirstNamed(o.deployment.value.containers, "agent", c)
         && o.deployment.value.containers[c].readinessProbe == Some(probe)
         && Addresses(url, k, probe.port, probe.path)
         && exists p :: p in o.service.value.ports && p.port == probe.port
  }

  lemma PublishedUrlLeads(k: Key, spec: AgentSpec, r: Resolution, url: string, before: D.DeploymentState, o: D.Objects, i: int)
    requires r.Resolved? && IsFirstA2A(spec.protocols, i)
    requires Addresses(url, k, spec.protocols[i].port, spec.protocols[i].path + "/.well-known/agent-card.json")
    requires o.deployment.Some? && DeploymentServes(k, spec, r, before, o.deployment.value)
    requires o.service.Some? && PortsAre(spec.protocols, o.service.value.ports)
    ensures LeadsToTheAgent(k, url, o)
  {
    var c :| D.IsFirstNamed(o.deployment.value.containers, "agent", c) && ContainerServes(k, spec, r, o.deployment.value.containers[c]);
    var probe := D.Probe(spec.protocols[i].path + "/.well-known/agent-card.json", spec.protocols[i].port);
    assert o.deployment.value.containers[c].readinessProbe == Some(probe);
    assert o.service.value.ports[i] in o.service.value.ports && o.service.value.ports[i].port == probe.port;
  }

  // ---------------------------------------------------------------- everything

  /** The objects of a served agent. */
  ghost predicate ObjectsServe(world: World, k: Key, spec: AgentSpec, r: Resolution, before: D.Objects, after: D.Objects)
    requires r.Resolved?
  {
    && after.deployment.Some?
    && DeploymentServes(k, spec, r, if before.deployment.Some? then before.deployment.value else D.NewDeployment, after.deployment.value)
    && (forall c :: D.IsFirstNamed(after.deployment.value.containers, "agent", c)
          ==> DocumentsSay(world, k, spec, after.deployment.value.containers[c].env))
    && (after.service.None? <==> spec.protocols == [])
    && (after.service.Some? ==>
          ServiceServes(k, spec, if before.service.Some? then before.service.value else D.NewService, after.service.value))
  }

  /**
    What a reconcile delivers: an agent that can be served is ready, served
    with what the world has for it, and has published a URL that leads to it
    exactly if it speaks A2A; one that cannot is not ready, and its objects
    are as they were.
   */
  ghost predicate Delivers(world: World, k: Key, spec: AgentSpec, r: Resolution, before: D.Objects, after: D.Objects, status: AgentStatus) {
    && (r.Resolved? <==> CanBeServed(world, k, spec))
    && StatusSays(k, spec, r, status)
    && (r.Failed? ==> after == before)
    && (r.Resolved? ==>
          && IsServedWith(world, k, spec, r)
          && ObjectsServe(world, k, spec, r, before, after)
          && (if exists i :: IsFirstA2A(spec.protocols, i) then LeadsToTheAgent(k, status.url, after) else status.url == ""))
  }

  lemma ObjectsServeAgent(world: World, k: Key, spec: AgentSpec, r: Resolution, env: seq<EnvVar>, before: D.Objects)
    requires MayResolve(world, k, spec, r) && r.Resolved? && IsEnvironment(k, spec, r, env)
    ensures ObjectsServe(world, k, spec, r, before, D.After(before, D.Reconcile(InputOf(k, spec, r.config, env))))
  {
    var after := D.After(before, D.Reconcile(InputOf(k, spec, r.config, env)));
    var d := if before.deployment.Some? then before.deployment.value else D.NewDeployment;
    ResolvesIffServed(world, k, spec, r);
    DeploymentServesAgent(k, spec, r, env, d);
    ServiceServesAgent(k, spec, r.config, env, if before.service.Some? then before.service.value else D.NewService);
    forall c | D.IsFirstNamed(after.deployment.value.containers, "agent", c)
      ensures DocumentsSay(world, k, spec, after.deployment.value.containers[c].env)
    {
      var i :| D.IsFirstNamed(after.deployment.value.containers, "agent", i)
               && ContainerServes(k, spec, r, after.deployment.value.containers[i]);
      assert i == c;
      EnvironmentHoldsDocuments(world, k, spec, r, after.deployment.value.containers[c].env);
    }
  }

  /** Every reconcile delivers. */
  lemma ReconcileDelivers(world: World, k: Key, spec: AgentSpec, r: Resolution, env: seq<EnvVar>, before: D.Objects)
    requires MayResolve(world, k, spec, r) && (r.Resolved? ==> IsEnvironment(k, spec, r, env))
    ensures
      var after := if r.Failed? then before else D.After(before, D.Reconcile(InputOf(k, spec, r.config, env)));
      Delivers(world, k, spec, r, before, after, StatusOf(k, spec, r))
  {
    ResolvesIffServed(world, k, spec, r);
    StatusOfSays(k, spec, r);
    if r.Resolved? {
      var after := D.After(before, D.Reconcile(InputOf(k, spec, r.config, env)));
      ObjectsServeAgent(world, k, spec, r, env, before);
      if i :| IsFirstA2A(spec.protocols, i) {
        PublishedUrlLeads(k, spec, r, StatusOf(k, spec, r).url,
                          if before.deployment.Some? then before.deployment.value else D.NewDeployment, after, i);
      }
    }
  }

  // ---------------------------------------------------------------- in every run

  /**
    Up to date, read off the world: the agent is ready if it can be served, its
    status and deployment say what it is served with, and it is not ready if
    it cannot be served.
   */
  ghost predicate IsAsTheWorldSays(s: State, k: Key)
    requires k in s.world.agents
  {
    var agent := s.world.agents[k];
    exists r: Resolution ::
      && (r.Resolved? <==> CanBeServed(s.world, k, agent.spec))
      && StatusSays(k, agent.spec, r, agent.status)
      && (r.Resolved? ==>
            && IsServedWith(s.world, k, agent.spec, r)
            && k in s.applied && s.applied[k] == Applied(agent.spec, r))
  }

  lemma UpToDateSays(s: State, k: Key)
    requires k in s.world.agents && UpToDate(s, k)
    ensures IsAsTheWorldSays(s, k)
  {
    var spec := s.world.agents[k].spec;
    var r :| MayResolve(s.world, k, spec, r) && Follows(s, k, r);
    ResolvesIffServed(s.world, k, spec, r);
    StatusOfSays(k, spec, r);
    assert StatusSays(k, spec, r, s.world.agents[k].status);
  }

  /**
    In every run, whatever changes between the look-ups of however many
    reconciles, an agent that is neither queued nor in flight is as specs and
    statuses in the world say now.
   */
  lemma IdleAgentsAreAsTheWorldSays(run: seq<State>, i: nat, k: Key)
    requires IsRun(run) && i < |run|
    requires k in run[i].world.agents && k !in run[i].queue && k !in run[i].flights
    ensures IsAsTheWorldSays(run[i], k)
  {
    NoLostWakeUp(run, i, k);
    UpToDateSays(run[i], k);
  }
}
