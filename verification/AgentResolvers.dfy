/**
  The agent controller's resolving loops and watch mappers, in the form it
  gives them: maps and slices filled by loops.
 */
module AgentResolvers {
  import opened Api
  import opened Collections
  import opened Resolution
  import opened WorldFacts

  function SubAgentAnswers(world: World, namespace: string, subs: seq<SubAgent>): seq<Answer> {
    seq(|subs|, i requires 0 <= i < |subs| => SubAgentAnswer(world, namespace, subs[i]))
  }

  function ToolAnswers(world: World, namespace: string, tools: seq<AgentTool>): seq<Answer> {
    seq(|tools|, i requires 0 <= i < |tools| => ToolAnswer(world, namespace, tools[i]))
  }

  /** The names of the sub-agents that cannot be resolved, in order. */
  function UnresolvedSubAgents(world: World, namespace: string, subs: seq<SubAgent>): (issues: seq<string>)
    ensures issues == [] <==> forall s <- subs :: ResolveSubAgentUrl(world, s, namespace).Some?
  {
    if subs == [] then []
    else
      var n := |subs| - 1;
      assert subs == subs[..n] + [subs[n]];
      UnresolvedSubAgents(world, namespace, subs[..n])
      + if ResolveSubAgentUrl(world, subs[n], namespace).None? then [subs[n].name] else []
  }

  function UnresolvedTools(world: World, namespace: string, tools: seq<AgentTool>): (issues: seq<string>)
    ensures issues == [] <==> forall t <- tools :: ResolveToolUrl(world, t, namespace).Some?
  {
    if tools == [] then []
    else
      var n := |tools| - 1;
      assert tools == tools[..n] + [tools[n]];
      UnresolvedTools(world, namespace, tools[..n])
      + if ResolveToolUrl(world, tools[n], namespace).None? then [tools[n].name] else []
  }

  /**
    What the two maps mean, whatever the look-ups answered: a name is there
    exactly when a declaration of it was resolved, with what the last such
    declaration gives.
   */
  lemma {:induction false} SubAgentMapKeepsLast(subs: seq<SubAgent>, answers: seq<Answer>, name: string)
    requires |subs| == |answers|
    ensures name in SubAgentMap(subs, answers) <==> exists i :: 0 <= i < |subs| && subs[i].name == name && answers[i].Url?
    ensures forall i :: 0 <= i < |subs| && subs[i].name == name && answers[i].Url?
                        && (forall j :: i < j < |subs| && subs[j].name == name ==> !answers[j].Url?)
                        ==> name in SubAgentMap(subs, answers)
                            && SubAgentMap(subs, answers)[name] == ResolvedSubAgent(answers[i].url, subs[i].interactionType)
  {
    if subs != [] {
      var n := |subs| - 1;
      SubAgentMapKeepsLast(subs[..n], answers[..n], name);
    }
  }

  lemma {:induction false} ToolMapKeepsLast(tools: seq<AgentTool>, answers: seq<Answer>, name: string)
    requires |tools| == |answers|
    ensures name in ToolMap(tools, answers) <==> exists i :: 0 <= i < |tools| && tools[i].name == name && answers[i].Url?
    ensures forall i :: 0 <= i < |tools| && tools[i].name == name && answers[i].Url?
                        && (forall j :: i < j < |tools| && tools[j].name == name ==> !answers[j].Url?)
                        ==> name in ToolMap(tools, answers)
                            && ToolMap(tools, answers)[name] == ResolvedTool(answers[i].url, tools[i].propagatedHeaders)
  {
    if tools != [] {
      var n := |tools| - 1;
      ToolMapKeepsLast(tools[..n], answers[..n], name);
    }
  }

  // ---------------------------------------------------------------- what they find

  lemma {:induction false} LastResolvedSubAgent(subs: seq<SubAgent>, answers: seq<Answer>, name: string) returns (i: int)
    requires |subs| == |answers| && name in SubAgentMap(subs, answers)
    ensures 0 <= i < |subs| && subs[i].name == name && answers[i].Url?
    ensures SubAgentMap(subs, answers)[name] == ResolvedSubAgent(answers[i].url, subs[i].interactionType)
    ensures forall j :: i < j < |subs| && subs[j].name == name ==> !answers[j].Url?
  {
    var n := |subs| - 1;
    if subs[n].name == name && answers[n].Url? {
      i := n;
    } else {
      i := LastResolvedSubAgent(subs[..n], answers[..n], name);
    }
  }

  lemma SubAgentsAreFound(world: World, namespace: string, subs: seq<SubAgent>)
    ensures SubAgentsFound(world, namespace, subs, SubAgentMap(subs, SubAgentAnswers(world, namespace, subs)))
  {
    var answers := SubAgentAnswers(world, namespace, subs);
    forall i | 0 <= i < |subs|
      ensures answers[i].Url? ==> GivesUrl(world, namespace, subs[i], answers[i].url)
      ensures answers[i].Url? <==> HasUrl(world, namespace, subs[i])
    {
      UnresolvedHasNoUrl(world, namespace, subs[i]);
      if answers[i].Url? {
        ResolvedUrlIsGiven(world, namespace, subs[i], answers[i].url);
      }
    }
    forall n | n in SubAgentMap(subs, answers)
      ensures exists i :: IsSubAgentEntry(world, namespace, subs, i, n, SubAgentMap(subs, answers)[n])
    {
      var i := LastResolvedSubAgent(subs, answers, n);
      assert IsSubAgentEntry(world, namespace, subs, i, n, SubAgentMap(subs, answers)[n]);
    }
    forall x | x in subs && HasUrl(world, namespace, x)
      ensures x.name in SubAgentMap(subs, answers)
    {
      var i :| 0 <= i < |subs| && subs[i] == x;
      SubAgentMapKeepsLast(subs, answers, x.name);
    }
  }

  lemma NextPlacesWithoutUrl(world: World, namespace: string, subs: seq<SubAgent>)
    requires subs != []
    ensures PlacesWithoutUrl(world, namespace, subs)
            == PlacesWithoutUrl(world, namespace, subs[..|subs| - 1])
               + if HasUrl(world, namespace, subs[|subs| - 1]) then {} else {|subs| - 1}
  {
  }

  lemma {:induction false} SubAgentPlaces(world: World, namespace: string, subs: seq<SubAgent>) returns (places: seq<nat>)
    ensures PicksInOrder(places, PlacesWithoutUrl(world, namespace, subs))
    ensures
      var issues := UnresolvedSubAgents(world, namespace, subs);
      && |issues| == |places|
      && forall m :: 0 <= m < |places| ==> places[m] < |subs| && issues[m] == subs[places[m]].name
  {
    if subs == [] {
      places := [];
    } else {
      var n := |subs| - 1;
      places := SubAgentPlaces(world, namespace, subs[..n]);
      UnresolvedHasNoUrl(world, namespace, subs[n]);
      var before := PlacesWithoutUrl(world, namespace, subs[..n]);
      NextPlacesWithoutUrl(world, namespace, subs);
      if !HasUrl(world, namespace, subs[n]) {
        PickNext(places, before, n);
        places := places + [n];
      }
    }
  }

  lemma SubAgentsAreNotFound(world: World, namespace: string, subs: seq<SubAgent>)
    ensures SubAgentsNotFound(world, namespace, subs, UnresolvedSubAgents(world, namespace, subs))
  {
    var places := SubAgentPlaces(world, namespace, subs);
  }

  lemma {:induction false} LastResolvedTool(tools: seq<AgentTool>, answers: seq<Answer>, name: string) returns (i: int)
    requires |tools| == |answers| && name in ToolMap(tools, answers)
    ensures 0 <= i < |tools| && tools[i].name == name && answers[i].Url?
    ensures ToolMap(tools, answers)[name] == ResolvedTool(answers[i].url, tools[i].propagatedHeaders)
    ensures forall j :: i < j < |tools| && tools[j].name == name ==> !answers[j].Url?
  {
    var n := |tools| - 1;
    if tools[n].name == name && answers[n].Url? {
      i := n;
    } else {
      i := LastResolvedTool(tools[..n], answers[..n], name);
    }
  }

  lemma ToolsAreFound(world: World, namespace: string, tools: seq<AgentTool>)
    ensures ToolsFound(world, namespace, tools, ToolMap(tools, ToolAnswers(world, namespace, tools)))
  {
    var answers := ToolAnswers(world, namespace, tools);
    forall i | 0 <= i < |tools|
      ensures answers[i].Url? ==> GivesToolUrl(world, namespace, tools[i], answers[i].url)
      ensures answers[i].Url? <==> HasToolUrl(world, namespace, tools[i])
    {
      UnresolvedToolHasNoUrl(world, namespace, tools[i]);
      if answers[i].Url? {
        ResolvedToolUrlIsGiven(world, namespace, tools[i], answers[i].url);
      }
    }
    forall n | n in ToolMap(tools, answers)
      ensures exists i :: IsToolEntry(world, namespace, tools, i, n, ToolMap(tools, answers)[n])
    {
      var i := LastResolvedTool(tools, answers, n);
      assert IsToolEntry(world, namespace, tools, i, n, ToolMap(tools, answers)[n]);
    }
    forall x | x in tools && HasToolUrl(world, namespace, x)
      ensures x.name in ToolMap(tools, answers)
    {
      var i :| 0 <= i < |tools| && tools[i] == x;
      ToolMapKeepsLast(tools, answers, x.name);
    }
  }

  lemma NextPlacesWithoutToolUrl(world: World, namespace: string, tools: seq<AgentTool>)
    requires tools != []
    ensures PlacesWithoutToolUrl(world, namespace, tools)
            == PlacesWithoutToolUrl(world, namespace, tools[..|tools| - 1])
               + if HasToolUrl(world, namespace, tools[|tools| - 1]) then {} else {|tools| - 1}
  {
  }

  lemma {:induction false} ToolPlaces(world: World, namespace: string, tools: seq<AgentTool>) returns (places: seq<nat>)
    ensures PicksInOrder(places, PlacesWithoutToolUrl(world, namespace, tools))
    ensures
      var issues := UnresolvedTools(world, namespace, tools);
      && |issues| == |places|
      && forall m :: 0 <= m < |places| ==> places[m] < |tools| && issues[m] == tools[places[m]].name
  {
    if tools == [] {
      places := [];
    } else {
      var n := |tools| - 1;
      places := ToolPlaces(world, namespace, tools[..n]);
      UnresolvedToolHasNoUrl(world, namespace, tools[n]);
      var before := PlacesWithoutToolUrl(world, namespace, tools[..n]);
      NextPlacesWithoutToolUrl(world, namespace, tools);
      if !HasToolUrl(world, namespace, tools[n]) {
        PickNext(places, before, n);
        places := places + [n];
      }
    }
  }

  lemma ToolsAreNotFound(world: World, namespace: string, tools: seq<AgentTool>)
    ensures ToolsNotFound(world, namespace, tools, UnresolvedTools(world, namespace, tools))
  {
    var places := ToolPlaces(world, namespace, tools);
  }

  // ---------------------------------------------------------------- the loops

  lemma NextSubAgent(world: World, namespace: string, subs: seq<SubAgent>, i: nat)
    requires i < |subs|
    ensures
      var url := ResolveSubAgentUrl(world, subs[i], namespace);
      var before := SubAgentMap(subs[..i], SubAgentAnswers(world, namespace, subs[..i]));
      && SubAgentMap(subs[..i + 1], SubAgentAnswers(world, namespace, subs[..i + 1]))
         == (if url.None? then before else before[subs[i].name := ResolvedSubAgent(url.value, subs[i].interactionType)])
      && UnresolvedSubAgents(world, namespace, subs[..i + 1])
         == UnresolvedSubAgents(world, namespace, subs[..i]) + if url.None? then [subs[i].name] else []
  {
    assert subs[..i + 1][..i] == subs[..i];
    assert SubAgentAnswers(world, namespace, subs[..i + 1])[..i] == SubAgentAnswers(world, namespace, subs[..i]);
  }

  /** Resolves what it can, and names all that it cannot. */
  method ResolveAllSubAgents(world: World, k: Key, spec: AgentSpec)
    returns (resolved: map<string, ResolvedSubAgent>, issues: seq<string>)
    ensures resolved == SubAgentMap(spec.subAgents, SubAgentAnswers(world, k.namespace, spec.subAgents))
    ensures issues == UnresolvedSubAgents(world, k.namespace, spec.subAgents)
    ensures SubAgentsFound(world, k.namespace, spec.subAgents, resolved)
    ensures SubAgentsNotFound(world, k.namespace, spec.subAgents, issues)
  {
    resolved, issues := map[], [];
    var i := 0;
    while i < |spec.subAgents|
      invariant 0 <= i <= |spec.subAgents|
      invariant resolved == SubAgentMap(spec.subAgents[..i], SubAgentAnswers(world, k.namespace, spec.subAgents[..i]))
      invariant issues == UnresolvedSubAgents(world, k.namespace, spec.subAgents[..i])
    {
      var subAgent := spec.subAgents[i];
      NextSubAgent(world, k.namespace, spec.subAgents, i);
      var url := ResolveSubAgentUrl(world, subAgent, k.namespace);
      if url.None? {
        issues := issues + [subAgent.name];
      } else {
        resolved := resolved[subAgent.name := ResolvedSubAgent(url.value, subAgent.interactionType)];
      }
      i := i + 1;
    }
    assert spec.subAgents[..i] == spec.subAgents;
    SubAgentsAreFound(world, k.namespace, spec.subAgents);
    SubAgentsAreNotFound(world, k.namespace, spec.subAgents);
  }

  method ResolveAllTools(world: World, k: Key, spec: AgentSpec)
    returns (resolved: map<string, ResolvedTool>, issues: seq<string>)
    ensures resolved == ToolMap(spec.tools, ToolAnswers(world, k.namespace, spec.tools))
    ensures issues == UnresolvedTools(world, k.namespace, spec.tools)
    ensures ToolsFound(world, k.namespace, spec.tools, resolved)
    ensures ToolsNotFound(world, k.namespace, spec.tools, issues)
  {
    resolved, issues := map[], [];
    var i := 0;
    while i < |spec.tools|
      invariant 0 <= i <= |spec.tools|
      invariant resolved == ToolMap(spec.tools[..i], ToolAnswers(world, k.namespace, spec.tools[..i]))
      invariant issues == UnresolvedTools(world, k.namespace, spec.tools[..i])
    {
      var tool := spec.tools[i];
      assert spec.tools[..i + 1][..i] == spec.tools[..i];
      assert ToolAnswers(world, k.namespace, spec.tools[..i + 1])[..i] == ToolAnswers(world, k.namespace, spec.tools[..i]);
      i := i + 1;
      var url := ResolveToolUrl(world, tool, k.namespace);
      if url.None? {
        issues := issues + [tool.name];
        continue;
      }
      resolved := resolved[tool.name := ResolvedTool(url.value, tool.propagatedHeaders)];
    }
    assert spec.tools[..i] == spec.tools;
    ToolsAreFound(world, k.namespace, spec.tools);
    ToolsAreNotFound(world, k.namespace, spec.tools);
  }

  // ---------------------------------------------------------------- the watch mappers

  /** The agents of a list that a changed resource wakes, in list order. */
  function Woken(change: Change, agents: seq<(Key, Agent)>): seq<Key> {
    if agents == [] then []
    else
      var n := |agents| - 1;
      Woken(change, agents[..n]) + if Wakes(change, agents[n].0, agents[n].1.spec) then [agents[n].0] else []
  }

  ghost predicate DistinctKeys(agents: seq<(Key, Agent)>) {
    forall i, j :: 0 <= i < j < |agents| ==> agents[i].0 != agents[j].0
  }

  ghost function WokenKeys(change: Change, agents: seq<(Key, Agent)>): set<Key> {
    set p | p in agents && Wakes(change, p.0, p.1.spec) :: p.0
  }

  lemma WokenKeysNext(change: Change, agents: seq<(Key, Agent)>)
    requires agents != []
    ensures
      var n := |agents| - 1;
      WokenKeys(change, agents)
      == WokenKeys(change, agents[..n]) + if Wakes(change, agents[n].0, agents[n].1.spec) then {agents[n].0} else {}
  {
    assert agents == agents[..|agents| - 1] + [agents[|agents| - 1]];
  }

  /** A list without repeated agents gives requests without repetition, one for each agent that is woken. */
  lemma {:induction false} WokenOnce(change: Change, agents: seq<(Key, Agent)>)
    requires DistinctKeys(agents)
    ensures IsOrder(Woken(change, agents), WokenKeys(change, agents))
  {
    if agents != [] {
      var n := |agents| - 1;
      WokenOnce(change, agents[..n]);
      WokenKeysNext(change, agents);
      assert agents[n].0 !in WokenKeys(change, agents[..n]);
    }
  }

  method FindAgentsReferencingSubAgent(agents: seq<(Key, Agent)>, updated: Key) returns (requests: seq<Key>)
    ensures requests == Woken(OfAgent(updated), agents)
  {
    requests := [];
    var i := 0;
    while i < |agents|
      invariant 0 <= i <= |agents|
      invariant requests == Woken(OfAgent(updated), agents[..i])
    {
      var (k, agent) := agents[i];
      assert agents[..i + 1][..i] == agents[..i];
      var j := 0;
      var found := false;
      while j < |agent.spec.subAgents|
        invariant 0 <= j <= |agent.spec.subAgents|
        invariant !found
        invariant forall s <- agent.spec.subAgents[..j] :: !(s.agentRef.Some? && RefKey(s.agentRef.value, k.namespace) == updated)
      {
        var s := agent.spec.subAgents[j];
        if s.agentRef.Some? && s.agentRef.value.name == updated.name {
          if NamespaceWithDefault(s.agentRef.value, k.namespace) == updated.namespace {
            requests := requests + [k];
            found := true;
            assert ReferencesSubAgent(k, agent.spec, updated);
            break;
          }
        }
        j := j + 1;
      }
      assert !found ==> agent.spec.subAgents[..j] == agent.spec.subAgents;
      i := i + 1;
    }
    assert agents[..i] == agents;
  }

  method FindAgentsReferencingToolRoute(agents: seq<(Key, Agent)>, updated: Key) returns (requests: seq<Key>)
    ensures requests == Woken(OfRoute(updated), agents)
  {
    requests := [];
    var i := 0;
    while i < |agents|
      invariant 0 <= i <= |agents|
      invariant requests == Woken(OfRoute(updated), agents[..i])
    {
      var (k, agent) := agents[i];
      assert agents[..i + 1][..i] == agents[..i];
      var j := 0;
      var found := false;
      while j < |agent.spec.tools|
        invariant 0 <= j <= |agent.spec.tools|
        invariant !found
        invariant forall t <- agent.spec.tools[..j] ::
                    !(t.upstream.toolRouteRef.Some? && RefKey(t.upstream.toolRouteRef.value, k.namespace) == updated)
      {
        var ref := agent.spec.tools[j].upstream.toolRouteRef;
        j := j + 1;
        assert agent.spec.tools[..j] == agent.spec.tools[..j - 1] + [agent.spec.tools[j - 1]];
        if ref.None? || ref.value.name != updated.name {
          continue;
        }
        var namespace := if ref.value.namespace == "" then k.namespace else ref.value.namespace;
        if namespace != updated.namespace {
          continue;
        }
        requests := requests + [k];
        found := true;
        assert agent.spec.tools[j - 1] in agent.spec.tools && ReferencesRoute(k, agent.spec, updated);
        break;
      }
      assert !found ==> agent.spec.tools[..j] == agent.spec.tools;
      i := i + 1;
    }
    assert agents[..i] == agents;
  }

  method FindAgentsReferencingToolServer(agents: seq<(Key, Agent)>, updated: Key) returns (requests: seq<Key>)
    ensures requests == Woken(OfServer(updated), agents)
  {
    requests := [];
    var i := 0;
    while i < |agents|
      invariant 0 <= i <= |agents|
      invariant requests == Woken(OfServer(updated), agents[..i])
    {
      var (k, agent) := agents[i];
      assert agents[..i + 1][..i] == agents[..i];
      var j := 0;
      var found := false;
      while j < |agent.spec.tools|
        invariant 0 <= j <= |agent.spec.tools|
        invariant !found
        invariant forall t <- agent.spec.tools[..j] ::
                    !(t.upstream.toolServerRef.Some? && RefKey(t.upstream.toolServerRef.value, k.namespace) == updated)
      {
        var ref := agent.spec.tools[j].upstream.toolServerRef;
        j := j + 1;
        assert agent.spec.tools[..j] == agent.spec.tools[..j - 1] + [agent.spec.tools[j - 1]];
        if ref.None? || ref.value.name != updated.name {
          continue;
        }
        var namespace := if ref.value.namespace == "" then k.namespace else ref.value.namespace;
        if namespace != updated.namespace {
          continue;
        }
        requests := requests + [k];
        found := true;
        assert agent.spec.tools[j - 1] in agent.spec.tools && ReferencesServer(k, agent.spec, updated);
        break;
      }
      assert !found ==> agent.spec.tools[..j] == agent.spec.tools;
      i := i + 1;
    }
    assert agents[..i] == agents;
  }

  method FindAgentsReferencingAiGateway(agents: seq<(Key, Agent)>, updated: Key) returns (requests: seq<Key>)
    ensures requests == Woken(OfGateway(updated), agents)
  {
    requests := [];
    var i := 0;
    while i < |agents|
      invariant 0 <= i <= |agents|
      invariant requests == Woken(OfGateway(updated), agents[..i])
    {
      var (k, agent) := agents[i];
      assert agents[..i + 1][..i] == agents[..i];
      var shouldReconcile := false;
      if agent.spec.aiGatewayRef.Some? {
        var ref := agent.spec.aiGatewayRef.value;
        var namespace := if ref.namespace == "" then k.namespace else ref.namespace;
        if ref.name == updated.name && namespace == updated.namespace {
          shouldReconcile := true;
        }
      } else {
        if updated.namespace == DEFAULT_AI_GATEWAY_NAMESPACE {
          shouldReconcile := true;
        }
      }
      if shouldReconcile {
        requests := requests + [k];
      }
      i := i + 1;
    }
    assert agents[..i] == agents;
  }

  method FindAllAgentsForRuntimeConfiguration(agents: seq<(Key, Agent)>, updated: Key) returns (requests: seq<Key>)
    ensures requests == Woken(OfConfig(updated), agents)
    ensures |requests| == |agents|
  {
    requests := [];
    var i := 0;
    while i < |agents|
      invariant 0 <= i <= |agents|
      invariant requests == Woken(OfConfig(updated), agents[..i])
      invariant |requests| == i
    {
      assert agents[..i + 1][..i] == agents[..i];
      requests := requests + [agents[i].0];
      i := i + 1;
    }
    assert agents[..i] == agents;
  }
}
