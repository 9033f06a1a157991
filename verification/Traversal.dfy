/**
  The workforce controller's own procedures, in the form it gives them:
  a recursive traversal that shares two mutable maps, loops that fill slices,
  and a reconcile that rewrites the status of a workforce in place.
 */
module Traversal {
  import opened Api
  import opened Collections
  import opened Keys
  import opened Declarations
  import opened Admission
  import opened Discovery
  import opened DiscoveryTheorems
  import opened DiscoveryLaws
  import opened Workforces

  class AgentTraversal {
    const agents: Agents
    var visitedAgents: map<string, TransitiveAgent>
    var allTools: set<string>

    constructor (agents: Agents)
      ensures this.agents == agents && Found() == Nothing
    {
      this.agents := agents;
      visitedAgents, allTools := map[], {};
    }

    function Found(): Findings
      reads this
    {
      Findings(visitedAgents, allTools)
    }

    /** Adds the identity of every tool that has a valid upstream. */
    method CollectTools(key: Key, agent: Agent)
      modifies this`allTools
      ensures allTools == old(allTools) + AgentTools(key, agent)
    {
      var i := 0;
      while i < |agent.spec.tools|
        invariant 0 <= i <= |agent.spec.tools|
        invariant allTools == old(allTools) + set t | t in agent.spec.tools[..i] && ToolIdentity(t, key.namespace).Some? ::
                                                ToolKeyString(ToolIdentity(t, key.namespace).value)
      {
        var tool := agent.spec.tools[i];
        assert agent.spec.tools[..i + 1] == agent.spec.tools[..i] + [tool];
        var identity := ToolIdentity(tool, key.namespace);
        if identity.Some? {
          allTools := allTools + {ToolKeyString(identity.value)};
        }
        i := i + 1;
      }
      assert agent.spec.tools[..i] == agent.spec.tools;
    }

    /** Terminates on every finite cluster: each expansion leaves fewer references unmarked. */
    method TraverseAgent(namespace: string, name: string)
      modifies this
      ensures Found() == Drain(agents, [Visit(Key(namespace, name))], old(Found()))
      decreases RefStrings(agents) + {KeyString(Key(namespace, name))} - visitedAgents.Keys
    {
      var key := Key(namespace, name);
      ghost var start := Found();
      DrainOneVisit(agents, key, start);
      if KeyString(key) in visitedAgents {
        return;
      }
      visitedAgents := visitedAgents[KeyString(key) := TransitiveAgent(name, namespace, "")];
      if key !in agents {
        return;
      }
      var agent := agents[key];
      CollectTools(key, agent);
      ghost var expanded := Expand(start, key, Some(agent));
      assert Found() == expanded;

      var i := 0;
      while i < |agent.spec.subAgents|
        invariant 0 <= i <= |agent.spec.subAgents|
        invariant Found() == Drain(agents, SubAgentsWork(agent.spec.subAgents[..i], namespace), expanded)
      {
        var subAgent := agent.spec.subAgents[i];
        ghost var done := SubAgentsWork(agent.spec.subAgents[..i], namespace);
        SubAgentsWorkNext(agent.spec.subAgents, i, namespace);
        DrainConcat(agents, done, SubAgentWork(subAgent, namespace), expanded);
        DrainGrows(agents, done, expanded);
        if subAgent.agentRef.Some? {
          var child := RefKey(subAgent.agentRef.value, namespace);
          ChildIsReferenced(agents, key, subAgent);
          LessIsUnmarked(agents, key, child, start.visited.Keys, visitedAgents.Keys);
          TraverseAgent(child.namespace, child.name);
        } else if subAgent.url != "" {
          DrainOneRecord(agents, subAgent.name, subAgent.url, Found());
          visitedAgents := visitedAgents[subAgent.url := TransitiveAgent(subAgent.name, "", subAgent.url)];
        }
        i := i + 1;
      }
      assert agent.spec.subAgents[..i] == agent.spec.subAgents;
    }
  }

  /** The measure of the recursion: a call on a child has fewer references to mark than the call on its parent. */
  lemma LessIsUnmarked(agents: Agents, k: Key, child: Key, before: set<string>, now: set<string>)
    requires KeyString(k) !in before && before + {KeyString(k)} <= now
    requires KeyString(child) in RefStrings(agents)
    ensures RefStrings(agents) + {KeyString(child)} - now < RefStrings(agents) + {KeyString(k)} - before
  {
    assert KeyString(k) in RefStrings(agents) + {KeyString(k)} - before;
  }

  lemma DrainOneVisit(agents: Agents, k: Key, f: Findings)
    ensures Drain(agents, [Visit(k)], f)
            == if KeyString(k) in f.visited then f
               else Drain(agents, ExpandWork(k, Lookup(agents, k)), Expand(f, k, Lookup(agents, k)))
  {
    assert [Visit(k)][1..] == [];
    assert ExpandWork(k, Lookup(agents, k)) + [] == ExpandWork(k, Lookup(agents, k));
  }

  lemma DrainOneRecord(agents: Agents, name: string, url: string, f: Findings)
    ensures Drain(agents, [Record(name, url)], f) == RecordRemote(f, name, url)
  {
    assert [Record(name, url)][1..] == [];
  }

  lemma {:induction false} SubAgentsWorkConcat(a: seq<SubAgent>, b: seq<SubAgent>, namespace: string)
    ensures SubAgentsWork(a + b, namespace) == SubAgentsWork(a, namespace) + SubAgentsWork(b, namespace)
  {
    if a == [] {
      assert a + b == b;
    } else {
      SubAgentsWorkConcat(a[1..], b, namespace);
      assert (a + b)[1..] == a[1..] + b;
      var head, x, y := SubAgentWork(a[0], namespace), SubAgentsWork(a[1..], namespace), SubAgentsWork(b, namespace);
      assert SubAgentsWork(a + b, namespace) == head + (x + y);
      assert head + (x + y) == (head + x) + y;
    }
  }

  lemma SubAgentsWorkNext(subs: seq<SubAgent>, i: nat, namespace: string)
    requires i < |subs|
    ensures SubAgentsWork(subs[..i + 1], namespace) == SubAgentsWork(subs[..i], namespace) + SubAgentWork(subs[i], namespace)
  {
    assert subs[..i + 1] == subs[..i] + [subs[i]];
    SubAgentsWorkConcat(subs[..i], [subs[i]], namespace);
    assert SubAgentsWork([subs[i]], namespace) == SubAgentWork(subs[i], namespace) + SubAgentsWork([], namespace);
  }

  lemma ChildIsReferenced(agents: Agents, k: Key, s: SubAgent)
    requires k in agents && s in agents[k].spec.subAgents && s.agentRef.Some?
    ensures KeyString(RefKey(s.agentRef.value, k.namespace)) in RefStrings(agents)
  {
    var child := RefKey(s.agentRef.value, k.namespace);
    assert Visit(child) in SubAgentWork(s, k.namespace);
    assert Visit(child) in AgentWork(k, agents[k]);
    assert KeyString(child) in VisitStrings(AgentWork(k, agents[k]));
  }

  /** The two slices are filled by ranging over the maps, in whatever order that gives. */
  method CollectTransitiveAgentsAndTools(agents: Agents, w: Key, entryPoints: seq<Option<ObjectReference>>)
    returns (transitiveAgents: seq<TransitiveAgent>, transitiveTools: seq<string>)
    ensures ListsAgents(Discover(agents, Entries(w, entryPoints)), transitiveAgents)
    ensures IsOrder(transitiveTools, Discover(agents, Entries(w, entryPoints)).tools)
  {
    var traversal := new AgentTraversal(agents);
    var i := 0;
    while i < |entryPoints|
      invariant 0 <= i <= |entryPoints|
      invariant fresh(traversal) && traversal.agents == agents
      invariant traversal.Found() == Discover(agents, Entries(w, entryPoints[..i]))
    {
      ghost var before := Visits(Entries(w, entryPoints[..i]));
      EntriesNext(w, entryPoints, i);
      if entryPoints[i].Some? {
        var key := RefKey(entryPoints[i].value, w.namespace);
        traversal.TraverseAgent(key.namespace, key.name);
        DrainConcat(agents, before, [Visit(key)], Nothing);
        assert Visits(Entries(w, entryPoints[..i + 1])) == before + [Visit(key)];
      }
      i := i + 1;
    }
    assert entryPoints[..i] == entryPoints;

    transitiveAgents := ListAgents(traversal.Found());
    transitiveTools := ListTools(traversal.Found());
  }

  method ListAgents(found: Findings) returns (listed: seq<TransitiveAgent>)
    ensures ListsAgents(found, listed)
  {
    var rest := found.visited;
    ghost var order: seq<string> := [];
    listed := [];
    while rest != map[]
      invariant rest.Keys <= found.visited.Keys
      invariant forall k <- rest :: rest[k] == found.visited[k]
      invariant IsOrder(order, found.visited.Keys - rest.Keys)
      invariant |listed| == |order|
      invariant forall j :: 0 <= j < |order| ==> order[j] in found.visited
      invariant forall j :: 0 <= j < |order| ==> listed[j] == found.visited[order[j]]
      decreases rest.Keys
    {
      var k :| k in rest;
      listed := listed + [rest[k]];
      order := order + [k];
      rest := rest - {k};
    }
    assert found.visited.Keys - rest.Keys == found.visited.Keys;
  }

  method ListTools(found: Findings) returns (listed: seq<string>)
    ensures IsOrder(listed, found.tools)
  {
    var rest := found.tools;
    listed := [];
    while rest != {}
      invariant rest <= found.tools
      invariant IsOrder(listed, found.tools - rest)
    {
      var t :| t in rest;
      listed := listed + [t];
      rest := rest - {t};
    }
  }

  method ValidateEntryPointAgents(agents: Agents, w: Key, entryPoints: seq<Option<ObjectReference>>)
    returns (allReady: bool, missing: seq<string>)
    ensures missing == Missing(agents, Entries(w, entryPoints))
    ensures allReady <==> missing == []
    ensures NamesMissing(agents, w.namespace, entryPoints, missing)
    ensures allReady <==> EntrySet(entryPoints, w.namespace) <= agents.Keys
  {
    allReady, missing := true, [];
    var i := 0;
    while i < |entryPoints|
      invariant 0 <= i <= |entryPoints|
      invariant missing == Missing(agents, Entries(w, entryPoints[..i]))
      invariant allReady <==> missing == []
    {
      EntriesNext(w, entryPoints, i);
      if entryPoints[i].Some? {
        var key := RefKey(entryPoints[i].value, w.namespace);
        MissingNext(agents, Entries(w, entryPoints[..i]), key);
        if key !in agents {
          allReady := false;
          missing := missing + [KeyString(key)];
        }
      }
      i := i + 1;
    }
    assert entryPoints[..i] == entryPoints;
    NothingMissing(agents, Entries(w, entryPoints));
    EntryKeysAre(entryPoints, w.namespace);
    MissingAreNamed(agents, w, entryPoints);
  }

  /** The requests of the watch on agents: each mapped workforce once. */
  method FindWorkforcesReferencingAgent(workforces: seq<(Key, Workforce)>, agent: Key) returns (requests: seq<Key>)
    ensures IsOrder(requests, set p | p in workforces && MapsTo(p.0, p.1, agent) :: p.0)
  {
    requests := [];
    var enqueued: set<Key> := {};
    var i := 0;
    while i < |workforces|
      invariant 0 <= i <= |workforces|
      invariant enqueued == set p | p in workforces[..i] && MapsTo(p.0, p.1, agent) :: p.0
      invariant IsOrder(requests, enqueued)
    {
      var (w, wf) := workforces[i];
      assert workforces[..i + 1] == workforces[..i] + [(w, wf)];
      i := i + 1;
      if w in enqueued {
        continue;
      }
      var j := 0;
      while j < |wf.entryPoints| && w !in enqueued
        invariant 0 <= j <= |wf.entryPoints|
        invariant w !in enqueued ==>
                    forall e <- wf.entryPoints[..j] :: !(e.Some? && KeyString(RefKey(e.value, w.namespace)) == KeyString(agent))
        invariant w in enqueued ==> MapsTo(w, wf, agent)
        invariant enqueued == (set p | p in workforces[..i - 1] && MapsTo(p.0, p.1, agent) :: p.0) + enqueued * {w}
        invariant IsOrder(requests, enqueued)
      {
        var entry := wf.entryPoints[j];
        assert wf.entryPoints[..j + 1] == wf.entryPoints[..j] + [entry];
        if entry.Some? && KeyString(RefKey(entry.value, w.namespace)) == KeyString(agent) {
          requests := requests + [w];
          enqueued := enqueued + {w};
        }
        j := j + 1;
      }
      if w in enqueued {
        continue;
      }
      assert wf.entryPoints[..j] == wf.entryPoints;
      j := 0;
      while j < |wf.status.transitiveAgents| && w !in enqueued
        invariant 0 <= j <= |wf.status.transitiveAgents|
        invariant w !in enqueued ==>
                    forall t <- wf.status.transitiveAgents[..j] :: !(t.name == agent.name && t.namespace == agent.namespace)
        invariant w in enqueued ==> MapsTo(w, wf, agent)
        invariant enqueued == (set p | p in workforces[..i - 1] && MapsTo(p.0, p.1, agent) :: p.0) + enqueued * {w}
        invariant IsOrder(requests, enqueued)
      {
        var t := wf.status.transitiveAgents[j];
        assert wf.status.transitiveAgents[..j + 1] == wf.status.transitiveAgents[..j] + [t];
        if t.name == agent.name && t.namespace == agent.namespace {
          requests := requests + [w];
          enqueued := enqueued + {w};
        }
        j := j + 1;
      }
      assert w !in enqueued ==> wf.status.transitiveAgents[..j] == wf.status.transitiveAgents;
    }
    assert workforces[..i] == workforces;
  }

  /** A workforce whose status is rewritten in place. */
  class WorkforceResource {
    const key: Key
    const entryPoints: seq<Option<ObjectReference>>
    var status: WorkforceStatus

    constructor (key: Key, wf: Workforce)
      ensures this.key == key && entryPoints == wf.entryPoints && status == wf.status
    {
      this.key, entryPoints, status := key, wf.entryPoints, wf.status;
    }

    /** A reconcile during which no agent changes leaves an exact status, whatever the status was. */
    method Reconcile(agents: Agents)
      modifies this
      ensures ExactStatus(agents, key, entryPoints, status)
      ensures WellFormed(agents) ==> SaysWhatIsThere(agents, key.namespace, entryPoints, status)
    {
      var allReady, missing := ValidateEntryPointAgents(agents, key, entryPoints);
      var transitiveAgents, transitiveTools := CollectTransitiveAgentsAndTools(agents, key, entryPoints);
      if allReady {
        status := status.(ready := Some(true), missing := []);
      } else {
        status := status.(ready := Some(false), missing := missing);
      }
      status := status.(transitiveAgents := transitiveAgents);
      status := status.(transitiveTools := transitiveTools);
      if WellFormed(agents) {
        ExactStatusSays(agents, key, entryPoints, status);
      }
    }
  }
}
