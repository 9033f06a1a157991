/**
  Transitive discovery: which agents and tools a workforce reaches.

  `Reach` says declaratively which agents are reachable, as the least set
  that holds the entry points and is closed under references.  `Drain` is the
  depth-first traversal as a worklist: the next item is either an agent to
  visit or a remote agent to record.  The theorems say that `Drain` finds
  exactly what `Reach` and the specs say, on every graph.
 */
module Discovery {
  import opened Api
  import opened Keys
  import opened Declarations

  /** One entry of a workforce's status: a cluster agent, or a remote one known by its URL. */
  datatype TransitiveAgent = TransitiveAgent(name: string, namespace: string, url: string)

  function ClusterEntry(k: Key): TransitiveAgent {
    TransitiveAgent(k.name, k.namespace, "")
  }

  /** The two maps that one traversal fills. */
  datatype Findings = Findings(visited: map<string, TransitiveAgent>, tools: set<string>)

  const Nothing: Findings := Findings(map[], {})

  datatype Work = Visit(key: Key) | Record(name: string, url: string)

  /** How the traversal identifies a tool of an agent in the given namespace; no upstream, no identity. */
  function ToolIdentity(t: AgentTool, namespace: string): Option<ToolId> {
    var u := t.upstream;
    if u.toolRouteRef.Some? && u.toolRouteRef.value.name != "" then
      Some(Route(RefKey(u.toolRouteRef.value, namespace)))
    else if u.toolServerRef.Some? && u.toolServerRef.value.name != "" then
      Some(Server(RefKey(u.toolServerRef.value, namespace)))
    else if u.external.Some? && u.external.value != "" then
      Some(External(u.external.value))
    else
      None
  }

  function AgentTools(k: Key, a: Agent): set<string> {
    set t | t in a.spec.tools && ToolIdentity(t, k.namespace).Some? :: ToolKeyString(ToolIdentity(t, k.namespace).value)
  }

  /** What the loop over sub-agents does with one of them: `agentRef` comes before `url`. */
  function SubAgentWork(s: SubAgent, namespace: string): seq<Work> {
    if s.agentRef.Some? then [Visit(RefKey(s.agentRef.value, namespace))]
    else if s.url != "" then [Record(s.name, s.url)]
    else []
  }

  function SubAgentsWork(subs: seq<SubAgent>, namespace: string): (work: seq<Work>)
    ensures forall w :: w in work <==> exists s :: s in subs && w in SubAgentWork(s, namespace)
  {
    if subs == [] then [] else SubAgentWork(subs[0], namespace) + SubAgentsWork(subs[1..], namespace)
  }

  function AgentWork(k: Key, a: Agent): seq<Work> {
    SubAgentsWork(a.spec.subAgents, k.namespace)
  }

  /** What the traversal does with an agent is what its spec declares, for every spec. */
  lemma WorkIsDeclared(k: Key, a: Agent)
    ensures forall c :: Visit(c) in AgentWork(k, a) <==> c in ReferencedAgents(k.namespace, a.spec)
    ensures forall n, u :: Record(n, u) in AgentWork(k, a) <==> DeclaresRemote(a.spec, n, u)
    ensures AgentTools(k, a) == DeclaredTools(k.namespace, a.spec)
  {
    forall c
      ensures Visit(c) in AgentWork(k, a) <==> c in ReferencedAgents(k.namespace, a.spec)
    {
      ReferencesAreMeant(k.namespace, a.spec, c);
      if s :| s in a.spec.subAgents && s.agentRef.Some? && PointsTo(s.agentRef.value, k.namespace, c) {
        LookedUpIsMeant(s.agentRef.value, k.namespace, c);
        assert Visit(c) in SubAgentWork(s, k.namespace);
      }
      if Visit(c) in AgentWork(k, a) {
        var s :| s in a.spec.subAgents && Visit(c) in SubAgentWork(s, k.namespace);
        LookedUpIsMeant(s.agentRef.value, k.namespace, c);
      }
    }
    forall n, u
      ensures Record(n, u) in AgentWork(k, a) <==> DeclaresRemote(a.spec, n, u)
    {
      if s :| s in a.spec.subAgents && s.agentRef.None? && s.url != "" && s.name == n && s.url == u {
        assert Record(n, u) in SubAgentWork(s, k.namespace);
      }
    }
    ToolsAreDeclared(k, a);
  }

  lemma ToolsAreDeclared(k: Key, a: Agent)
    ensures AgentTools(k, a) == DeclaredTools(k.namespace, a.spec)
  {
    forall t | t in a.spec.tools && ToolIdentity(t, k.namespace).Some?
      ensures ToolKeyString(ToolIdentity(t, k.namespace).value)
              == (if Named(t.upstream.toolRouteRef) then "toolroute:" + NameText(t.upstream.toolRouteRef.value, k.namespace)
                  else if Named(t.upstream.toolServerRef) then "toolserver:" + NameText(t.upstream.toolServerRef.value, k.namespace)
                  else "external:" + t.upstream.external.value)
    {
    }
  }

  // ---------------------------------------------------------------- the traversal

  function VisitStrings(work: seq<Work>): set<string> {
    set w | w in work && w.Visit? :: KeyString(w.key)
  }

  /** The strings of all references between agents of the cluster. */
  function RefStrings(agents: Agents): set<string> {
    set k, r | k in agents && r in VisitStrings(AgentWork(k, agents[k])) :: r
  }

  function Pending(agents: Agents, work: seq<Work>, f: Findings): set<string> {
    RefStrings(agents) + VisitStrings(work) - f.visited.Keys
  }

  /** The marking of an agent, before it is fetched. */
  function Mark(f: Findings, k: Key): Findings {
    f.(visited := f.visited[KeyString(k) := ClusterEntry(k)])
  }

  /** Findings and remaining work after an unvisited key was marked and the fetch gave `answer`. */
  function Expand(f: Findings, k: Key, answer: Option<Agent>): Findings {
    if answer.None? then Mark(f, k) else Mark(f, k).(tools := f.tools + AgentTools(k, answer.value))
  }

  function ExpandWork(k: Key, answer: Option<Agent>): seq<Work> {
    if answer.None? then [] else AgentWork(k, answer.value)
  }

  function RecordRemote(f: Findings, name: string, url: string): Findings {
    f.(visited := f.visited[url := TransitiveAgent(name, "", url)])
  }

  /** Expanding a key strictly shrinks the references still to be marked. */
  lemma ExpansionShrinksPending(agents: Agents, work: seq<Work>, f: Findings)
    requires work != [] && work[0].Visit? && KeyString(work[0].key) !in f.visited
    ensures
      var k := work[0].key;
      var answer := Lookup(agents, k);
      Pending(agents, ExpandWork(k, answer) + work[1..], Expand(f, k, answer)) < Pending(agents, work, f)
  {
    var k := work[0].key;
    var answer := Lookup(agents, k);
    var work' := ExpandWork(k, answer) + work[1..];
    forall r | r in VisitStrings(work')
      ensures r in RefStrings(agents) + VisitStrings(work)
    {
      var w :| w in work' && w.Visit? && KeyString(w.key) == r;
      if w in ExpandWork(k, answer) {
        assert r in VisitStrings(AgentWork(k, agents[k]));
      } else {
        assert w in work;
      }
    }
    assert KeyString(k) in Pending(agents, work, f) by {
      assert work[0] in work;
    }
  }

  /** The whole traversal: work items are done in order, and an expanded agent's items come first. */
  function Drain(agents: Agents, work: seq<Work>, f: Findings): Findings
    decreases Pending(agents, work, f), |work|
  {
    if work == [] then f else
    match work[0]
    case Record(n, u) =>
      Drain(agents, work[1..], RecordRemote(f, n, u))
    case Visit(k) =>
      if KeyString(k) in f.visited then
        Drain(agents, work[1..], f)
      else
        var f' := Expand(f, k, Lookup(agents, k));
        var work' := ExpandWork(k, Lookup(agents, k)) + work[1..];
        ExpansionShrinksPending(agents, work, f);
        Drain(agents, work', f')
  }

  /** The keys a workforce in the given namespace starts from; nil entries are skipped. */
  function EntryKeys(entries: seq<Option<ObjectReference>>, namespace: string): seq<Key> {
    if entries == [] then []
    else (if entries[0].Some? then [RefKey(entries[0].value, namespace)] else [])
         + EntryKeys(entries[1..], namespace)
  }

  function Visits(keys: seq<Key>): seq<Work> {
    seq(|keys|, i requires 0 <= i < |keys| => Visit(keys[i]))
  }

  /** What a traversal from the given keys finds. */
  function Discover(agents: Agents, keys: seq<Key>): Findings {
    Drain(agents, Visits(keys), Nothing)
  }

  // ---------------------------------------------------------------- the specification

  /** The agents that one agent references, existing or not. */
  function Children(k: Key, a: Agent): set<Key> {
    ReferencedAgents(k.namespace, a.spec)
  }

  ghost predicate Closed(agents: Agents, s: set<Key>) {
    forall k <- s :: k in agents ==> Children(k, agents[k]) <= s
  }

  ghost predicate InEveryClosed(agents: Agents, roots: set<Key>, k: Key) {
    forall s: set<Key> {:trigger Closed(agents, s)} :: roots <= s && Closed(agents, s) ==> k in s
  }

  ghost function Universe(agents: Agents, roots: set<Key>): set<Key> {
    roots + set k, c | k in agents && c in Children(k, agents[k]) :: c
  }

  /** The least set that holds the roots and is closed under the references of existing agents. */
  ghost function Reach(agents: Agents, roots: set<Key>): set<Key> {
    set k | k in Universe(agents, roots) && InEveryClosed(agents, roots, k)
  }

  ghost function ToolsOf(agents: Agents, keys: set<Key>): set<string> {
    set k, t | k in keys && k in agents && t in DeclaredTools(k.namespace, agents[k].spec) :: t
  }

  ghost function UrlsOf(agents: Agents, keys: set<Key>): set<string> {
    set k, u | k in keys && k in agents && u in DeclaredUrls(agents[k].spec) :: u
  }

  ghost function Strings(keys: set<Key>): set<string> {
    set k | k in keys :: KeyString(k)
  }

  /** Some agent among the keys declares the remote agent under this name. */
  ghost predicate Declared(agents: Agents, keys: set<Key>, name: string, url: string) {
    exists k :: k in keys && k in agents && DeclaresRemote(agents[k].spec, name, url)
  }

  lemma ReachIsLeast(agents: Agents, roots: set<Key>)
    ensures roots <= Reach(agents, roots)
    ensures Closed(agents, Reach(agents, roots))
    ensures forall s: set<Key> :: roots <= s && Closed(agents, s) ==> Reach(agents, roots) <= s
  {
    forall k | k in Reach(agents, roots) && k in agents
      ensures Children(k, agents[k]) <= Reach(agents, roots)
    {
      forall c | c in Children(k, agents[k])
        ensures InEveryClosed(agents, roots, c)
      {
      }
    }
  }

  /** A set with the three defining properties is `Reach`. */
  lemma LeastIsReach(agents: Agents, roots: set<Key>, r: set<Key>)
    requires roots <= r && Closed(agents, r)
    requires forall s: set<Key> :: roots <= s && Closed(agents, s) ==> r <= s
    ensures r == Reach(agents, roots)
  {
    ReachIsLeast(agents, roots);
  }
}
