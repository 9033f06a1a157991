/**
  What an agent's reconcile looks up: the runtime configuration, the URL of
  every sub-agent and every tool, and the AI gateway; and the watches that
  map a change of one of those resources to the agents that look it up.
 */
module Resolution {
  import opened Api
  import opened Collections

  datatype Gateway = Gateway(port: int)

  datatype RuntimeConfig = RuntimeConfig(defaultFramework: string, googleAdkImage: string, msafImage: string)

  /** Everything a reconcile of an agent may read; routes and servers are kept as their status URLs. */
  datatype World = World(
    operatorNamespace: string,
    agents: Agents,
    routes: map<Key, string>,
    servers: map<Key, string>,
    gateways: map<Key, Gateway>,
    configs: map<Key, RuntimeConfig>)

  const DEFAULT_AI_GATEWAY_NAMESPACE: string := "ai-gateway"

  // ---------------------------------------------------------------- the resolvers

  /** For a sub-agent a URL comes before a reference; a reference gives the URL the agent published. */
  function ResolveSubAgentUrl(world: World, s: SubAgent, namespace: string): Option<string> {
    if s.url != "" then Some(s.url)
    else if s.agentRef.None? then None
    else
      var k := RefKey(s.agentRef.value, namespace);
      if k !in world.agents || world.agents[k].status.url == "" then None
      else Some(world.agents[k].status.url)
  }

  function ResolveByStatusUrl(store: map<Key, string>, ref: ObjectReference, namespace: string): Option<string> {
    if ref.name == "" then None
    else
      var k := RefKey(ref, namespace);
      if k !in store || store[k] == "" then None else Some(store[k])
  }

  predicate IsSpace(c: char) {
    || c in "\t\n\U{0B}\U{0C}\r \U{85}\U{A0}\U{1680}\U{2028}\U{2029}\U{202F}\U{205F}\U{3000}"
    || '\U{2000}' <= c <= '\U{200A}'
  }

  function TrimSpace(s: string): string {
    if s == "" then ""
    else if IsSpace(s[0]) then TrimSpace(s[1..])
    else if IsSpace(s[|s| - 1]) then TrimSpace(s[..|s| - 1])
    else s
  }

  function ResolveToolUrl(world: World, t: AgentTool, namespace: string): Option<string> {
    if t.upstream.toolRouteRef.Some? then
      ResolveByStatusUrl(world.routes, t.upstream.toolRouteRef.value, namespace)
    else if t.upstream.toolServerRef.Some? then
      ResolveByStatusUrl(world.servers, t.upstream.toolServerRef.value, namespace)
    else if t.upstream.external.Some? then
      var url := TrimSpace(t.upstream.external.value);
      if url == "" then None else Some(url)
    else
      None
  }

  /** The part of a store that one namespace holds. */
  function InNamespace<V>(store: map<Key, V>, namespace: string): map<Key, V> {
    map k | k in store && k.namespace == namespace :: store[k]
  }

  /** One resource of a store. */
  ghost function Pick<V>(store: map<Key, V>): (r: (Key, V))
    requires store != map[]
    ensures r.0 in store && store[r.0] == r.1
  {
    var k :| k in store;
    (k, store[k])
  }

  /**
    What looking up the gateway may give.  The outer option is the error, the
    inner one is "no gateway", which is not an error.  Without a reference it
    is whichever gateway of the default namespace the list begins with; the
    list comes in any order, and in another one each time.
   */
  ghost predicate MayFindGateway(world: World, ref: Option<ObjectReference>, namespace: string, r: Option<Option<(Key, Gateway)>>) {
    if ref.Some? then
      var k := RefKey(ref.value, namespace);
      r == if k in world.gateways then Some(Some((k, world.gateways[k]))) else None
    else
      var candidates := InNamespace(world.gateways, DEFAULT_AI_GATEWAY_NAMESPACE);
      if candidates == map[] then r == Some(None)
      else r.Some? && r.value.Some? && r.value.value.0 in candidates && r.value.value.1 == candidates[r.value.value.0]
  }

  /** The only configuration of the operator's namespace; several are an error. */
  ghost function ResolveRuntimeConfig(world: World): Option<Option<RuntimeConfig>> {
    var candidates := InNamespace(world.configs, world.operatorNamespace);
    if world.operatorNamespace == "" then None
    else if candidates == map[] then Some(None)
    else if |candidates| > 1 then None
    else Some(Some(Pick(candidates).1))
  }

  // ---------------------------------------------------------------- a reconcile's look-ups

  datatype Query =
    | AskConfig
    | AskSubAgent(subAgent: SubAgent)
    | AskTool(tool: AgentTool)
    | AskGateway(ref: Option<ObjectReference>)

  datatype Answer =
    | NotResolved
    | Url(url: string)
    | Config(config: Option<RuntimeConfig>)
    | FoundGateway(gateway: Option<(Key, Gateway)>)

  ghost function ConfigAnswer(world: World): Answer {
    var r := ResolveRuntimeConfig(world);
    if r.None? then NotResolved else Config(r.value)
  }

  function SubAgentAnswer(world: World, namespace: string, s: SubAgent): Answer {
    var r := ResolveSubAgentUrl(world, s, namespace);
    if r.None? then NotResolved else Url(r.value)
  }

  function ToolAnswer(world: World, namespace: string, t: AgentTool): Answer {
    var r := ResolveToolUrl(world, t, namespace);
    if r.None? then NotResolved else Url(r.value)
  }

  /** Whether the look-up may be answered like this; only the choice among several default gateways is free. */
  ghost predicate MayAnswer(world: World, namespace: string, q: Query, a: Answer) {
    match q
    case AskConfig => a == ConfigAnswer(world)
    case AskSubAgent(s) => a == SubAgentAnswer(world, namespace, s)
    case AskTool(t) => a == ToolAnswer(world, namespace, t)
    case AskGateway(ref) =>
      if a == NotResolved then MayFindGateway(world, ref, namespace, None)
      else a.FoundGateway? && MayFindGateway(world, ref, namespace, Some(a.gateway))
  }

  /** The look-up finds nothing; that does not depend on any choice. */
  ghost predicate FindsNothing(world: World, namespace: string, q: Query) {
    MayAnswer(world, namespace, q, NotResolved)
  }

  lemma FailureIsSure(world: World, namespace: string, q: Query, a: Answer)
    requires MayAnswer(world, namespace, q, a)
    ensures a == NotResolved <==> FindsNothing(world, namespace, q)
  {
  }

  /** One of the answers a look-up may have. */
  ghost function SomeAnswer(world: World, namespace: string, q: Query): (a: Answer)
    ensures MayAnswer(world, namespace, q, a)
  {
    match q
    case AskConfig => ConfigAnswer(world)
    case AskSubAgent(s) => SubAgentAnswer(world, namespace, s)
    case AskTool(t) => ToolAnswer(world, namespace, t)
    case AskGateway(ref) =>
      var candidates := InNamespace(world.gateways, DEFAULT_AI_GATEWAY_NAMESPACE);
      if ref.Some? then
        var k := RefKey(ref.value, namespace);
        if k in world.gateways then FoundGateway(Some((k, world.gateways[k]))) else NotResolved
      else if candidates == map[] then FoundGateway(None)
      else FoundGateway(Some(Pick(candidates)))
  }

  /** The look-ups of one reconcile, in order. */
  function Plan(spec: AgentSpec): seq<Query> {
    [AskConfig]
    + seq(|spec.subAgents|, i requires 0 <= i < |spec.subAgents| => AskSubAgent(spec.subAgents[i]))
    + seq(|spec.tools|, i requires 0 <= i < |spec.tools| => AskTool(spec.tools[i]))
    + [AskGateway(spec.aiGatewayRef)]
  }

  /** The first answers of a reconcile, all of them true of this world. */
  ghost predicate TrueSoFar(world: World, namespace: string, spec: AgentSpec, answers: seq<Answer>) {
    && |answers| <= |Plan(spec)|
    && forall i :: 0 <= i < |answers| ==> MayAnswer(world, namespace, Plan(spec)[i], answers[i])
  }

  ghost predicate AreAnswers(world: World, namespace: string, spec: AgentSpec, answers: seq<Answer>) {
    |answers| == |Plan(spec)| && TrueSoFar(world, namespace, spec, answers)
  }

  datatype Resolution =
    | Failed
    | Resolved(
        subAgents: map<string, ResolvedSubAgent>,
        tools: map<string, ResolvedTool>,
        gateway: Option<(Key, Gateway)>,
        config: Option<RuntimeConfig>)

  function UrlOf(a: Answer): string {
    if a.Url? then a.url else ""
  }

  /** Resolved sub-agents by name; of two with one name the later is kept. */
  function SubAgentMap(subs: seq<SubAgent>, answers: seq<Answer>): map<string, ResolvedSubAgent>
    requires |subs| == |answers|
  {
    if subs == [] then map[]
    else
      var n := |subs| - 1;
      var before := SubAgentMap(subs[..n], answers[..n]);
      if answers[n].Url? then before[subs[n].name := ResolvedSubAgent(answers[n].url, subs[n].interactionType)] else before
  }

  function ToolMap(tools: seq<AgentTool>, answers: seq<Answer>): map<string, ResolvedTool>
    requires |tools| == |answers|
  {
    if tools == [] then map[]
    else
      var n := |tools| - 1;
      var before := ToolMap(tools[..n], answers[..n]);
      if answers[n].Url? then before[tools[n].name := ResolvedTool(answers[n].url, tools[n].propagatedHeaders)] else before
  }

  /** The environment cannot be built while a resolved sub-agent has no interaction type. */
  predicate EnvironmentBuildable(subAgents: map<string, ResolvedSubAgent>) {
    forall n <- subAgents :: subAgents[n].interactionType != ""
  }

  /** What a reconcile makes of its answers. */
  function Outcome(spec: AgentSpec, answers: seq<Answer>): Resolution
    requires |answers| == |Plan(spec)|
  {
    var n, m := |spec.subAgents|, |spec.tools|;
    if NotResolved in answers then Failed
    else
      var subAgents := SubAgentMap(spec.subAgents, answers[1..1 + n]);
      if !EnvironmentBuildable(subAgents) then Failed
      else
        Resolved(subAgents, ToolMap(spec.tools, answers[1 + n..1 + n + m]),
                 if answers[1 + n + m].FoundGateway? then answers[1 + n + m].gateway else None,
                 if answers[0].Config? then answers[0].config else None)
  }

  /** What a reconcile in which nothing changes may make of the world. */
  ghost predicate MayResolve(world: World, k: Key, spec: AgentSpec, r: Resolution) {
    exists answers :: AreAnswers(world, k.namespace, spec, answers) && r == Outcome(spec, answers)
  }

  /** Any answers so far are the beginning of answers to everything. */
  lemma AnswersGoOn(world: World, namespace: string, spec: AgentSpec, answers: seq<Answer>) returns (all: seq<Answer>)
    requires TrueSoFar(world, namespace, spec, answers)
    ensures AreAnswers(world, namespace, spec, all) && answers <= all
  {
    all := seq(|Plan(spec)|, i requires 0 <= i < |Plan(spec)| =>
      if i < |answers| then answers[i] else SomeAnswer(world, namespace, Plan(spec)[i]));
  }

  /** There is no choice of gateway: one is named, or the default namespace holds at most one. */
  ghost predicate NoChoice(world: World, spec: AgentSpec) {
    spec.aiGatewayRef.Some? || |InNamespace(world.gateways, DEFAULT_AI_GATEWAY_NAMESPACE)| <= 1
  }

  /** Two resolutions of one world differ at most in the gateway, and not even in that when there is no choice. */
  lemma OnlyTheGatewayIsFree(world: World, k: Key, spec: AgentSpec, r: Resolution, r': Resolution)
    requires MayResolve(world, k, spec, r) && MayResolve(world, k, spec, r')
    ensures r.Failed? <==> r'.Failed?
    ensures r.Resolved? ==> r' == r.(gateway := r'.gateway)
    ensures NoChoice(world, spec) ==> r == r'
  {
    var a :| AreAnswers(world, k.namespace, spec, a) && r == Outcome(spec, a);
    var b :| AreAnswers(world, k.namespace, spec, b) && r' == Outcome(spec, b);
    AnswersAgree(world, k, spec, a, b);
    OutcomesAgree(spec, a, b, NoChoice(world, spec));
  }

  lemma AnswersAgree(world: World, k: Key, spec: AgentSpec, a: seq<Answer>, b: seq<Answer>)
    requires AreAnswers(world, k.namespace, spec, a) && AreAnswers(world, k.namespace, spec, b)
    ensures forall i :: 0 <= i < |a| - 1 ==> a[i] == b[i]
    ensures a[|a| - 1] == NotResolved <==> b[|a| - 1] == NotResolved
    ensures NoChoice(world, spec) ==> a[|a| - 1] == b[|a| - 1]
  {
    var n := |a| - 1;
    forall i | 0 <= i < n
      ensures a[i] == b[i]
    {
      assert !Plan(spec)[i].AskGateway?;
      assert MayAnswer(world, k.namespace, Plan(spec)[i], a[i]) && MayAnswer(world, k.namespace, Plan(spec)[i], b[i]);
    }
    GatewayAnswers(world, k, spec, a[n], b[n]);
  }

  lemma OutcomesAgree(spec: AgentSpec, a: seq<Answer>, b: seq<Answer>, same: bool)
    requires |a| == |b| == |Plan(spec)|
    requires forall i :: 0 <= i < |a| - 1 ==> a[i] == b[i]
    requires a[|a| - 1] == NotResolved <==> b[|a| - 1] == NotResolved
    requires same ==> a[|a| - 1] == b[|a| - 1]
    ensures same ==> Outcome(spec, a) == Outcome(spec, b)
    ensures Outcome(spec, a).Failed? <==> Outcome(spec, b).Failed?
    ensures Outcome(spec, a).Resolved? ==> Outcome(spec, b) == Outcome(spec, a).(gateway := Outcome(spec, b).gateway)
  {
    var n, subs := |a| - 1, 1 + |spec.subAgents|;
    assert a == a[..n] + [a[n]] && b == a[..n] + [b[n]];
    assert a[1..subs] == b[1..subs] && a[subs..n] == b[subs..n];
  }

  lemma GatewayAnswers(world: World, k: Key, spec: AgentSpec, a: Answer, b: Answer)
    requires MayAnswer(world, k.namespace, AskGateway(spec.aiGatewayRef), a)
    requires MayAnswer(world, k.namespace, AskGateway(spec.aiGatewayRef), b)
    ensures a == NotResolved <==> b == NotResolved
    ensures NoChoice(world, spec) ==> a == b
  {
    var candidates := InNamespace(world.gateways, DEFAULT_AI_GATEWAY_NAMESPACE);
    if NoChoice(world, spec) && spec.aiGatewayRef.None? && candidates != map[] {
      assert |candidates.Keys| == |candidates|;
      SingletonHas(candidates.Keys, a.gateway.value.0, b.gateway.value.0);
    }
  }

  // ---------------------------------------------------------------- the watches

  /** The resource that an event is about. */
  datatype Change =
    | OfAgent(key: Key)
    | OfRoute(key: Key)
    | OfServer(key: Key)
    | OfGateway(key: Key)
    | OfConfig(key: Key)

  predicate ReferencesSubAgent(k: Key, spec: AgentSpec, agent: Key) {
    exists s <- spec.subAgents :: s.agentRef.Some? && RefKey(s.agentRef.value, k.namespace) == agent
  }

  predicate ReferencesRoute(k: Key, spec: AgentSpec, route: Key) {
    exists t <- spec.tools :: t.upstream.toolRouteRef.Some? && RefKey(t.upstream.toolRouteRef.value, k.namespace) == route
  }

  predicate ReferencesServer(k: Key, spec: AgentSpec, server: Key) {
    exists t <- spec.tools :: t.upstream.toolServerRef.Some? && RefKey(t.upstream.toolServerRef.value, k.namespace) == server
  }

  predicate ReferencesGateway(k: Key, spec: AgentSpec, gateway: Key) {
    if spec.aiGatewayRef.Some? then RefKey(spec.aiGatewayRef.value, k.namespace) == gateway
    else gateway.namespace == DEFAULT_AI_GATEWAY_NAMESPACE
  }

  /** Whether the watch on the changed resource maps it to the agent. */
  predicate Wakes(change: Change, k: Key, spec: AgentSpec) {
    match change
    case OfAgent(x) => ReferencesSubAgent(k, spec, x)
    case OfRoute(x) => ReferencesRoute(k, spec, x)
    case OfServer(x) => ReferencesServer(k, spec, x)
    case OfGateway(x) => ReferencesGateway(k, spec, x)
    case OfConfig(_) => true
  }

  /** Two stores that agree on every key but one. */
  ghost predicate SameBut<V>(store: map<Key, V>, store': map<Key, V>, x: Key) {
    forall k :: k != x ==> Lookup(store, k) == Lookup(store', k)
  }

  /** Two worlds that differ in one resource. */
  ghost predicate DifferOnlyIn(change: Change, world: World, world': World) {
    match change
    case OfAgent(x) => world' == world.(agents := world'.agents) && SameBut(world.agents, world'.agents, x)
    case OfRoute(x) => world' == world.(routes := world'.routes) && SameBut(world.routes, world'.routes, x)
    case OfServer(x) => world' == world.(servers := world'.servers) && SameBut(world.servers, world'.servers, x)
    case OfGateway(x) => world' == world.(gateways := world'.gateways) && SameBut(world.gateways, world'.gateways, x)
    case OfConfig(x) => world' == world.(configs := world'.configs) && SameBut(world.configs, world'.configs, x)
  }

  lemma NamespaceFrame<V>(store: map<Key, V>, store': map<Key, V>, x: Key, namespace: string)
    requires SameBut(store, store', x) && x.namespace != namespace
    ensures InNamespace(store, namespace) == InNamespace(store', namespace)
  {
    forall k: Key | k.namespace == namespace
      ensures Lookup(store, k) == Lookup(store', k)
    {
    }
    assert forall k: Key :: k.namespace == namespace ==> (k in store <==> k in store');
    assert forall k <- InNamespace(store, namespace) :: Lookup(store, k) == Lookup(store', k);
  }

  lemma PlanHas(spec: AgentSpec, q: Query)
    requires q in Plan(spec)
    ensures match q
            case AskConfig => true
            case AskSubAgent(s) => s in spec.subAgents
            case AskTool(t) => t in spec.tools
            case AskGateway(ref) => ref == spec.aiGatewayRef
  {
    var i :| 0 <= i < |Plan(spec)| && Plan(spec)[i] == q;
  }

  lemma SubAgentFrame(change: Change, world: World, world': World, k: Key, spec: AgentSpec, s: SubAgent)
    requires DifferOnlyIn(change, world, world') && !Wakes(change, k, spec) && s in spec.subAgents
    ensures ResolveSubAgentUrl(world', s, k.namespace) == ResolveSubAgentUrl(world, s, k.namespace)
  {
    if s.agentRef.Some? {
      var child := RefKey(s.agentRef.value, k.namespace);
      assert Lookup(world.agents, child) == Lookup(world'.agents, child);
    }
  }

  lemma ToolFrame(change: Change, world: World, world': World, k: Key, spec: AgentSpec, t: AgentTool)
    requires DifferOnlyIn(change, world, world') && !Wakes(change, k, spec) && t in spec.tools
    ensures ResolveToolUrl(world', t, k.namespace) == ResolveToolUrl(world, t, k.namespace)
  {
    if t.upstream.toolRouteRef.Some? {
      var route := RefKey(t.upstream.toolRouteRef.value, k.namespace);
      assert Lookup(world.routes, route) == Lookup(world'.routes, route);
    } else if t.upstream.toolServerRef.Some? {
      var server := RefKey(t.upstream.toolServerRef.value, k.namespace);
      assert Lookup(world.servers, server) == Lookup(world'.servers, server);
    }
  }

  lemma GatewayFrame(change: Change, world: World, world': World, k: Key, spec: AgentSpec, r: Option<Option<(Key, Gateway)>>)
    requires DifferOnlyIn(change, world, world') && !Wakes(change, k, spec)
    ensures MayFindGateway(world', spec.aiGatewayRef, k.namespace, r) <==> MayFindGateway(world, spec.aiGatewayRef, k.namespace, r)
  {
    if spec.aiGatewayRef.Some? {
      var gateway := RefKey(spec.aiGatewayRef.value, k.namespace);
      assert Lookup(world.gateways, gateway) == Lookup(world'.gateways, gateway);
    } else if change.OfGateway? {
      NamespaceFrame(world.gateways, world'.gateways, change.key, DEFAULT_AI_GATEWAY_NAMESPACE);
    }
  }

  /** A look-up whose resource the watch does not map to the agent has the same answer before and after. */
  lemma LookupFrame(change: Change, world: World, world': World, k: Key, spec: AgentSpec, q: Query, a: Answer)
    requires DifferOnlyIn(change, world, world') && !Wakes(change, k, spec)
    requires q in Plan(spec)
    ensures MayAnswer(world', k.namespace, q, a) <==> MayAnswer(world, k.namespace, q, a)
  {
    PlanHas(spec, q);
    match q {
      case AskConfig =>
      case AskSubAgent(s) =>
        SubAgentFrame(change, world, world', k, spec, s);
      case AskTool(t) =>
        ToolFrame(change, world, world', k, spec, t);
      case AskGateway(_) =>
        GatewayFrame(change, world, world', k, spec, if a.FoundGateway? then Some(a.gateway) else None);
    }
  }

  /**
    The watches are complete: when one resource changes and an agent's
    resolution changes with it, the watch on that resource wakes the agent.
   */
  lemma WatchesComplete(change: Change, world: World, world': World, k: Key, spec: AgentSpec, r: Resolution)
    requires DifferOnlyIn(change, world, world')
    requires MayResolve(world', k, spec, r) != MayResolve(world, k, spec, r)
    ensures Wakes(change, k, spec)
  {
    if !Wakes(change, k, spec) {
      ResolutionFrame(change, world, world', k, spec, r);
    }
  }

  lemma TrueSoFarFrame(change: Change, world: World, world': World, k: Key, spec: AgentSpec, answers: seq<Answer>)
    requires DifferOnlyIn(change, world, world') && !Wakes(change, k, spec)
    ensures TrueSoFar(world', k.namespace, spec, answers) <==> TrueSoFar(world, k.namespace, spec, answers)
  {
    if |answers| <= |Plan(spec)| {
      forall i | 0 <= i < |answers|
        ensures MayAnswer(world', k.namespace, Plan(spec)[i], answers[i]) <==> MayAnswer(world, k.namespace, Plan(spec)[i], answers[i])
      {
        LookupFrame(change, world, world', k, spec, Plan(spec)[i], answers[i]);
      }
    }
  }

  lemma ResolutionFrame(change: Change, world: World, world': World, k: Key, spec: AgentSpec, r: Resolution)
    requires DifferOnlyIn(change, world, world') && !Wakes(change, k, spec)
    ensures MayResolve(world', k, spec, r) <==> MayResolve(world, k, spec, r)
  {
    forall answers
      ensures AreAnswers(world', k.namespace, spec, answers) <==> AreAnswers(world, k.namespace, spec, answers)
    {
      TrueSoFarFrame(change, world, world', k, spec, answers);
    }
  }
}
