/**
  What the world gives an agent, read off specs and statuses alone: the URLs of
  its sub-agents and tools, its configuration and its gateway.  The resolvers
  are measured against this.
 */
module WorldFacts {
  import opened Api
  import opened Collections
  import opened Declarations
  import opened Resolution

  // ---------------------------------------------------------------- sub-agents

  /** A declared URL is the sub-agent's; without one, the URL that the agent it references has published. */
  ghost predicate GivesUrl(world: World, namespace: string, s: SubAgent, url: string) {
    && url != ""
    && if s.url != "" then url == s.url
       else s.agentRef.Some?
            && exists k <- world.agents :: PointsTo(s.agentRef.value, namespace, k) && world.agents[k].status.url == url
  }

  ghost predicate HasUrl(world: World, namespace: string, s: SubAgent) {
    exists url :: GivesUrl(world, namespace, s, url)
  }

  lemma ResolvedUrlIsGiven(world: World, namespace: string, s: SubAgent, url: string)
    ensures ResolveSubAgentUrl(world, s, namespace) == Some(url) <==> GivesUrl(world, namespace, s, url)
  {
    if s.url == "" && s.agentRef.Some? {
      var k := RefKey(s.agentRef.value, namespace);
      forall j
        ensures PointsTo(s.agentRef.value, namespace, j) <==> j == k
      {
        LookedUpIsMeant(s.agentRef.value, namespace, j);
      }
    }
  }

  lemma UnresolvedHasNoUrl(world: World, namespace: string, s: SubAgent)
    ensures ResolveSubAgentUrl(world, s, namespace).Some? <==> HasUrl(world, namespace, s)
  {
    var r := ResolveSubAgentUrl(world, s, namespace);
    if r.Some? {
      ResolvedUrlIsGiven(world, namespace, s, r.value);
    }
    if url :| GivesUrl(world, namespace, s, url) {
      ResolvedUrlIsGiven(world, namespace, s, url);
    }
  }

  /** The declaration at this place is the last of its name that has a URL, and the entry is what it asks for. */
  ghost predicate IsSubAgentEntry(world: World, namespace: string, subs: seq<SubAgent>, i: int, name: string, entry: ResolvedSubAgent) {
    && 0 <= i < |subs| && subs[i].name == name
    && GivesUrl(world, namespace, subs[i], entry.url) && entry.interactionType == subs[i].interactionType
    && forall j :: i < j < |subs| && subs[j].name == name ==> !HasUrl(world, namespace, subs[j])
  }

  /** Exactly the names that some declaration has a URL for, each with the last such declaration. */
  ghost predicate SubAgentsFound(world: World, namespace: string, subs: seq<SubAgent>, resolved: map<string, ResolvedSubAgent>) {
    && (forall n <- resolved :: exists i :: IsSubAgentEntry(world, namespace, subs, i, n, resolved[n]))
    && (forall s <- subs :: HasUrl(world, namespace, s) ==> s.name in resolved)
  }

  ghost function PlacesWithoutUrl(world: World, namespace: string, subs: seq<SubAgent>): set<nat> {
    set i: nat | i < |subs| && !HasUrl(world, namespace, subs[i])
  }

  /** The names of exactly the sub-agents without a URL, in order. */
  ghost predicate SubAgentsNotFound(world: World, namespace: string, subs: seq<SubAgent>, issues: seq<string>) {
    exists places: seq<nat> ::
      && PicksInOrder(places, PlacesWithoutUrl(world, namespace, subs))
      && |issues| == |places|
      && forall m :: 0 <= m < |places| ==> places[m] < |subs| && issues[m] == subs[places[m]].name
  }

  // ---------------------------------------------------------------- tools

  /** The status URL of the resource that the reference means. */
  predicate PublishedUrl(store: map<Key, string>, ref: ObjectReference, namespace: string, url: string) {
    ref.name != "" && url != "" && exists k <- store :: PointsTo(ref, namespace, k) && store[k] == url
  }

  /** The code points that Unicode calls white space. */
  const WHITE_SPACE: set<int> := {
    0x09, 0x0A, 0x0B, 0x0C, 0x0D, 0x20, 0x85, 0xA0, 0x1680,
    0x2000, 0x2001, 0x2002, 0x2003, 0x2004, 0x2005, 0x2006, 0x2007, 0x2008, 0x2009, 0x200A,
    0x2028, 0x2029, 0x202F, 0x205F, 0x3000}

  predicate IsWhite(c: char) {
    c as int in WHITE_SPACE
  }

  predicate AllWhite(s: string) {
    forall c <- s :: IsWhite(c)
  }

  /** What is left of a text between the white space at its ends. */
  ghost predicate IsTrimmed(text: string, url: string) {
    && url != "" && !IsWhite(url[0]) && !IsWhite(url[|url| - 1])
    && exists before: string, after: string :: AllWhite(before) && AllWhite(after) && text == before + url + after
  }

  /** A tool with a route has the route's URL, one with a server the server's, and else the external one. */
  ghost predicate GivesToolUrl(world: World, namespace: string, t: AgentTool, url: string) {
    if t.upstream.toolRouteRef.Some? then PublishedUrl(world.routes, t.upstream.toolRouteRef.value, namespace, url)
    else if t.upstream.toolServerRef.Some? then PublishedUrl(world.servers, t.upstream.toolServerRef.value, namespace, url)
    else t.upstream.external.Some? && IsTrimmed(t.upstream.external.value, url)
  }

  ghost predicate HasToolUrl(world: World, namespace: string, t: AgentTool) {
    exists url :: GivesToolUrl(world, namespace, t, url)
  }

  lemma StatusUrlIsPublished(store: map<Key, string>, ref: ObjectReference, namespace: string, url: string)
    ensures ResolveByStatusUrl(store, ref, namespace) == Some(url) <==> PublishedUrl(store, ref, namespace, url)
  {
    var k := RefKey(ref, namespace);
    forall j
      ensures PointsTo(ref, namespace, j) <==> j == k
    {
      LookedUpIsMeant(ref, namespace, j);
    }
  }

  lemma SpaceIsWhite(c: char)
    ensures IsSpace(c) <==> IsWhite(c)
  {
    if '\U{2000}' <= c <= '\U{200A}' {
      assert 0x2000 <= c as int <= 0x200A;
    }
    assert IsSpace(c) ==> c as int in WHITE_SPACE;
  }

  lemma WhiteInFront(c: char, text: string, url: string)
    requires IsWhite(c) && IsTrimmed(text, url)
    ensures IsTrimmed([c] + text, url)
  {
    var before: string, after: string :| AllWhite(before) && AllWhite(after) && text == before + url + after;
    assert AllWhite([c] + before);
    assert [c] + text == ([c] + before) + url + after;
  }

  lemma WhiteBehind(text: string, c: char, url: string)
    requires IsWhite(c) && IsTrimmed(text, url)
    ensures IsTrimmed(text + [c], url)
  {
    var before: string, after: string :| AllWhite(before) && AllWhite(after) && text == before + url + after;
    assert AllWhite(after + [c]);
    assert text + [c] == before + url + (after + [c]);
  }

  lemma TrimmedAlready(text: string)
    requires text != "" && !IsWhite(text[0]) && !IsWhite(text[|text| - 1])
    ensures IsTrimmed(text, text)
  {
    assert AllWhite("") && text == "" + text + "";
  }

  lemma {:induction false} TrimIsTrimmed(text: string)
    ensures if TrimSpace(text) == "" then AllWhite(text) else IsTrimmed(text, TrimSpace(text))
    decreases |text|
  {
    if text != "" {
      var n := |text| - 1;
      SpaceIsWhite(text[0]);
      SpaceIsWhite(text[n]);
      if IsSpace(text[0]) {
        TrimIsTrimmed(text[1..]);
        assert text == [text[0]] + text[1..];
        if TrimSpace(text[1..]) != "" {
          WhiteInFront(text[0], text[1..], TrimSpace(text[1..]));
        }
      } else if IsSpace(text[n]) {
        TrimIsTrimmed(text[..n]);
        assert text == text[..n] + [text[n]];
        if TrimSpace(text[..n]) != "" {
          WhiteBehind(text[..n], text[n], TrimSpace(text[..n]));
        }
      } else {
        TrimmedAlready(text);
      }
    }
  }

  /** Around a trimmed text there is only white space; it begins and ends with something else. */
  lemma TrimmedStretch(text: string, url: string) returns (from: nat, to: nat)
    requires IsTrimmed(text, url)
    ensures from < to <= |text| && url == text[from..to]
    ensures !IsWhite(text[from]) && !IsWhite(text[to - 1])
    ensures forall p :: 0 <= p < |text| && !(from <= p < to) ==> IsWhite(text[p])
  {
    var before: string, after: string :| AllWhite(before) && AllWhite(after) && text == before + url + after;
    from, to := |before|, |before| + |url|;
    forall p | 0 <= p < |text| && !(from <= p < to)
      ensures IsWhite(text[p])
    {
      assert text[p] == if p < from then before[p] else after[p - to];
    }
  }

  /** A text has one trimmed form at most. */
  lemma TrimmedIsUnique(text: string, a: string, b: string)
    requires IsTrimmed(text, a) && IsTrimmed(text, b)
    ensures a == b
  {
    var i, j := TrimmedStretch(text, a);
    var m, n := TrimmedStretch(text, b);
    assert i == m && j == n;
  }

  lemma TrimmedIsNotWhite(text: string, url: string)
    requires IsTrimmed(text, url)
    ensures !AllWhite(text)
  {
    var before: string, after: string :| AllWhite(before) && AllWhite(after) && text == before + url + after;
    assert text[|before|] == url[0];
    assert url[0] in text;
  }

  lemma TrimmedIffTrim(text: string, url: string)
    ensures IsTrimmed(text, url) <==> url != "" && TrimSpace(text) == url
  {
    TrimIsTrimmed(text);
    if IsTrimmed(text, url) {
      TrimmedIsNotWhite(text, url);
      TrimmedIsUnique(text, url, TrimSpace(text));
    }
  }

  lemma ResolvedToolUrlIsGiven(world: World, namespace: string, t: AgentTool, url: string)
    ensures ResolveToolUrl(world, t, namespace) == Some(url) <==> GivesToolUrl(world, namespace, t, url)
  {
    if t.upstream.toolRouteRef.Some? {
      StatusUrlIsPublished(world.routes, t.upstream.toolRouteRef.value, namespace, url);
    } else if t.upstream.toolServerRef.Some? {
      StatusUrlIsPublished(world.servers, t.upstream.toolServerRef.value, namespace, url);
    } else if t.upstream.external.Some? {
      TrimmedIffTrim(t.upstream.external.value, url);
    }
  }

  lemma UnresolvedToolHasNoUrl(world: World, namespace: string, t: AgentTool)
    ensures ResolveToolUrl(world, t, namespace).Some? <==> HasToolUrl(world, namespace, t)
  {
    var r := ResolveToolUrl(world, t, namespace);
    if r.Some? {
      ResolvedToolUrlIsGiven(world, namespace, t, r.value);
    }
    if url :| GivesToolUrl(world, namespace, t, url) {
      ResolvedToolUrlIsGiven(world, namespace, t, url);
    }
  }

  ghost predicate IsToolEntry(world: World, namespace: string, tools: seq<AgentTool>, i: int, name: string, entry: ResolvedTool) {
    && 0 <= i < |tools| && tools[i].name == name
    && GivesToolUrl(world, namespace, tools[i], entry.url) && entry.propagatedHeaders == tools[i].propagatedHeaders
    && forall j :: i < j < |tools| && tools[j].name == name ==> !HasToolUrl(world, namespace, tools[j])
  }

  ghost predicate ToolsFound(world: World, namespace: string, tools: seq<AgentTool>, resolved: map<string, ResolvedTool>) {
    && (forall n <- resolved :: exists i :: IsToolEntry(world, namespace, tools, i, n, resolved[n]))
    && (forall t <- tools :: HasToolUrl(world, namespace, t) ==> t.name in resolved)
  }

  ghost function PlacesWithoutToolUrl(world: World, namespace: string, tools: seq<AgentTool>): set<nat> {
    set i: nat | i < |tools| && !HasToolUrl(world, namespace, tools[i])
  }

  ghost predicate ToolsNotFound(world: World, namespace: string, tools: seq<AgentTool>, issues: seq<string>) {
    exists places: seq<nat> ::
      && PicksInOrder(places, PlacesWithoutToolUrl(world, namespace, tools))
      && |issues| == |places|
      && forall m :: 0 <= m < |places| ==> places[m] < |tools| && issues[m] == tools[places[m]].name
  }

  // ---------------------------------------------------------------- configuration and gateway

  /** The configuration of the operator's own namespace, of which there is at most one; the operator knows its namespace. */
  ghost predicate ConfigIs(world: World, config: Option<RuntimeConfig>) {
    && world.operatorNamespace != ""
    && match config
       case None => forall k <- world.configs :: k.namespace != world.operatorNamespace
       case Some(c) =>
         exists k :: k in world.configs && k.namespace == world.operatorNamespace && world.configs[k] == c
                     && forall j <- world.configs :: j.namespace == world.operatorNamespace ==> j == k
  }

  lemma ResolvedConfigIs(world: World, config: Option<RuntimeConfig>)
    ensures ResolveRuntimeConfig(world) == Some(config) <==> ConfigIs(world, config)
  {
    var candidates := InNamespace(world.configs, world.operatorNamespace);
    assert |candidates| == |candidates.Keys|;
    assert forall k <- world.configs :: k.namespace == world.operatorNamespace ==> k in candidates;
    if |candidates.Keys| > 1 {
      var x, y := TwoOf(candidates.Keys);
      assert x in candidates && y in candidates;
    } else if candidates != map[] {
      var picked := Pick(candidates);
      forall j | j in candidates
        ensures j == picked.0
      {
        SingletonHas(candidates.Keys, j, picked.0);
      }
      assert picked.0 in world.configs && picked.0.namespace == world.operatorNamespace && world.configs[picked.0] == picked.1;
    }
  }

  /** The gateway that the reference means; without a reference one of the default namespace, or none if there is none. */
  ghost predicate GatewayIs(world: World, namespace: string, ref: Option<ObjectReference>, gateway: Option<(Key, Gateway)>) {
    match gateway
    case None => ref.None? && forall k <- world.gateways :: k.namespace != "ai-gateway"
    case Some((k, g)) =>
      && k in world.gateways && world.gateways[k] == g
      && if ref.Some? then PointsTo(ref.value, namespace, k) else k.namespace == "ai-gateway"
  }

  lemma FoundGatewayIs(world: World, namespace: string, ref: Option<ObjectReference>, gateway: Option<(Key, Gateway)>)
    ensures MayFindGateway(world, ref, namespace, Some(gateway)) <==> GatewayIs(world, namespace, ref, gateway)
  {
    if ref.Some? {
      var k := RefKey(ref.value, namespace);
      forall j
        ensures PointsTo(ref.value, namespace, j) <==> j == k
      {
        LookedUpIsMeant(ref.value, namespace, j);
      }
    } else {
      var candidates := InNamespace(world.gateways, DEFAULT_AI_GATEWAY_NAMESPACE);
      assert forall k <- world.gateways :: k.namespace == "ai-gateway" ==> k in candidates;
      if candidates != map[] {
        assert Pick(candidates).0 in candidates;
      }
    }
  }

  // ---------------------------------------------------------------- the watches

  /** The agent's spec refers to the resource, or may come to use it. */
  predicate Concerns(change: Change, k: Key, spec: AgentSpec) {
    match change
    case OfAgent(x) => x in ReferencedAgents(k.namespace, spec)
    case OfRoute(x) =>
      exists t <- spec.tools :: t.upstream.toolRouteRef.Some? && PointsTo(t.upstream.toolRouteRef.value, k.namespace, x)
    case OfServer(x) =>
      exists t <- spec.tools :: t.upstream.toolServerRef.Some? && PointsTo(t.upstream.toolServerRef.value, k.namespace, x)
    case OfGateway(x) =>
      if spec.aiGatewayRef.Some? then PointsTo(spec.aiGatewayRef.value, k.namespace, x) else x.namespace == "ai-gateway"
    case OfConfig(_) => true
  }

  /** Each watch wakes exactly the agents that the changed resource concerns. */
  lemma WatchesAreExact(change: Change, k: Key, spec: AgentSpec)
    ensures Wakes(change, k, spec) <==> Concerns(change, k, spec)
  {
    forall ref: ObjectReference
      ensures RefKey(ref, k.namespace) == change.key <==> PointsTo(ref, k.namespace, change.key)
    {
      LookedUpIsMeant(ref, k.namespace, change.key);
    }
    if change.OfAgent? {
      ReferencesAreMeant(k.namespace, spec, change.key);
    }
  }
}
