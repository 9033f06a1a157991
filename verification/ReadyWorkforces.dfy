/**
  Where the two controllers meet: what a workforce discovers when its entry
  points are ready.
 */
module ReadyWorkforces {
  import opened Api
  import opened Declarations
  import opened Keys
  import opened Admission
  import opened Discovery
  import opened DiscoveryTheorems
  import opened Readiness
  import opened ReadinessConvergence
  import A = AgentProtocol
  import W = WorkforceProtocol

  /** For admitted specs the traversal and the resolver follow the same references. */
  lemma ChildrenAreDependencies(agents: Agents, k: Key, child: Key)
    requires WellFormed(agents) && k in agents
    ensures child in Children(k, agents[k]) <==> Depends(k, agents[k].spec, child)
  {
    var spec := agents[k].spec;
    if child in Children(k, agents[k]) {
      ReferencesAreMeant(k.namespace, spec, child);
      var s :| s in spec.subAgents && s.agentRef.Some? && PointsTo(s.agentRef.value, k.namespace, child);
      LookedUpIsMeant(s.agentRef.value, k.namespace, child);
      assert SubAgentErrors(s) == [];
      AcceptedSubAgentIsOneKind(s);
    }
    if Depends(k, spec, child) {
      var s :| s in spec.subAgents && s.url == "" && s.agentRef.Some? && RefKey(s.agentRef.value, k.namespace) == child;
      LookedUpIsMeant(s.agentRef.value, k.namespace, child);
      ReferencesAreMeant(k.namespace, spec, child);
    }
  }

  /** Whatever is reachable from agents that are up is up, as long as none is up without support. */
  lemma UpReachesOnlyUp(agents: Agents, able: set<Key>, up: set<Key>, roots: set<Key>)
    requires WellFormed(agents) && Consistent(SpecsOf(agents), able, up)
    requires roots <= up
    ensures Reach(agents, roots) <= up
  {
    var specs := SpecsOf(agents);
    forall k, c | k in up && k in agents && c in Children(k, agents[k])
      ensures c in up
    {
      assert Supported(specs, able, up, k);
      ChildrenAreDependencies(agents, k, c);
      var s :| s in specs[k].subAgents && s.url == "" && s.agentRef.Some? && RefKey(s.agentRef.value, k.namespace) == c;
    }
    assert Closed(agents, up);
    ReachIsLeast(agents, roots);
  }

  /** Whatever is reachable from ready agents is ready, so it exists: discovery from them meets no missing agent. */
  lemma ReadyReachesOnlyReady(agents: Agents, able: set<Key>, roots: set<Key>)
    requires WellFormed(agents)
    requires roots <= Least(SpecsOf(agents), able)
    ensures Reach(agents, roots) <= Least(SpecsOf(agents), able)
    ensures Reach(agents, roots) <= agents.Keys
  {
    forall k | k in Least(SpecsOf(agents), able)
      ensures Supported(SpecsOf(agents), able, Least(SpecsOf(agents), able), k)
    {
      LeastIsFixpoint(SpecsOf(agents), able, k);
    }
    UpReachesOnlyUp(agents, able, Least(SpecsOf(agents), able), roots);
  }

  /** In terms of what discovery returns: every cluster entry it lists is a ready agent. */
  lemma ReadyWorkforceListsReadyAgents(agents: Agents, able: set<Key>, keys: seq<Key>, s: string)
    requires WellFormed(agents)
    requires Roots(keys) <= Least(SpecsOf(agents), able)
    requires s in Discover(agents, keys).visited
    ensures
      var t := Discover(agents, keys).visited[s];
      t.url == "" ==> Key(t.namespace, t.name) in agents && Key(t.namespace, t.name) in Least(SpecsOf(agents), able)
  {
    var f, reach := Discover(agents, keys), Reach(agents, Roots(keys));
    DiscoverExact(agents, keys);
    assert Explained(agents, f, reach, s);
    if f.visited[s].url == "" {
      var k :| k in reach && KeyString(k) == s && f.visited[s] == ClusterEntry(k);
      ReadyReachesOnlyReady(agents, able, Roots(keys));
    }
  }

  /**
    The two controllers together.  In any run of each, on the same cluster:
    once the agent controller is quiet, a workforce that is neither queued nor
    in flight is ready and lists only cluster agents that have a URL exactly
    when all its entry points have one.
   */
  lemma QuietWorkforceListsServedAgents(agentRun: seq<A.State>, i: nat, workforceRun: seq<W.State>, j: nat, w: Key)
    requires A.IsRun(agentRun) && i < |agentRun| && agentRun[i].queue == {} && agentRun[i].flights == map[]
    requires W.IsRun(workforceRun) && j < |workforceRun| && workforceRun[j].agents == agentRun[i].world.agents
    requires w in workforceRun[j].workforces && w !in workforceRun[j].queue && w !in workforceRun[j].flights
    ensures
      var up, wf := Ups(agentRun[i].world), workforceRun[j].workforces[w];
      EntrySet(wf.entryPoints, w.namespace) <= up <==>
        && wf.status.ready == Some(true)
        && forall t <- wf.status.transitiveAgents :: t.url == "" ==> Key(t.namespace, t.name) in up
  {
    var world, agents, wf := agentRun[i].world, workforceRun[j].agents, workforceRun[j].workforces[w];
    var up, roots := Ups(world), EntrySet(wf.entryPoints, w.namespace);
    QuietRunIsLeast(agentRun, i);
    AtRestIsStable(world);
    StableIffFixpoint(SpecsOf(agents), Able(world), up);
    assert Consistent(SpecsOf(agents), Able(world), up);
    W.RunKeepsInv(workforceRun, j);
    W.NoLostUpdate(workforceRun, j, w);
    ReachIsLeast(agents, roots);
    if roots <= up {
      UpReachesOnlyUp(agents, Able(world), up, roots);
    } else if roots <= agents.Keys {
      var r :| r in roots && r !in up;
      assert ClusterEntry(r) in wf.status.transitiveAgents;
    }
  }
}
