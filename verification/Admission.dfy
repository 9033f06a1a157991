/**
  The stateless part of the admission webhook that the controllers rely on:
  what an Agent that reached the cluster looks like.
 */
module Admission {
  import opened Api
  import opened Keys

  datatype SubAgentError = MutuallyExclusive | NeitherSpecified | RefNameMissing | BadUrl

  /** The field errors of one sub-agent, in the order they are reported. */
  function SubAgentErrors(s: SubAgent): seq<SubAgentError> {
    var hasAgentRef := s.agentRef.Some?;
    var hasUrl := s.url != "";
    (if hasAgentRef && hasUrl then [MutuallyExclusive] else [])
    + (if !hasAgentRef && !hasUrl then [NeitherSpecified] else [])
    + (if hasAgentRef && s.agentRef.value.name == "" then [RefNameMissing] else [])
    + (if hasUrl && !HttpUrl(s.url) then [BadUrl] else [])
  }

  datatype ToolError = RouteNameMissing | ServerNameMissing

  function ToolErrors(t: AgentTool): seq<ToolError> {
    (if t.upstream.toolRouteRef.Some? && t.upstream.toolRouteRef.value.name == "" then [RouteNameMissing] else [])
    + (if t.upstream.toolServerRef.Some? && t.upstream.toolServerRef.value.name == "" then [ServerNameMissing] else [])
  }

  /** A tool is accepted exactly when the references it has name something. */
  lemma AcceptedToolsAreNamed(t: AgentTool)
    ensures ToolErrors(t) == [] <==>
              && (forall ref :: t.upstream.toolRouteRef == Some(ref) ==> ref.name != "")
              && (forall ref :: t.upstream.toolServerRef == Some(ref) ==> ref.name != "")
  {
    assert ToolErrors(t) == [] <==> |ToolErrors(t)| == 0;
  }

  /** An agent spec whose sub-agents and tools the webhook lets through. */
  predicate Admitted(spec: AgentSpec) {
    && (forall s <- spec.subAgents :: SubAgentErrors(s) == [])
    && (forall t <- spec.tools :: ToolErrors(t) == [])
  }

  /** A sub-agent is accepted exactly when it is one well-formed reference or one well-formed URL. */
  lemma AcceptedSubAgentIsOneKind(s: SubAgent)
    ensures SubAgentErrors(s) == [] <==>
              || (s.agentRef.Some? && s.agentRef.value.name != "" && s.url == "")
              || (s.agentRef.None? && HttpUrl(s.url))
  {
    assert !HttpUrl("");
    assert SubAgentErrors(s) == [] <==> |SubAgentErrors(s)| == 0;
  }

  /** A cluster whose agents have the names the API server allows and specs the webhook admitted. */
  ghost predicate WellFormed(agents: Agents) {
    forall k <- agents :: ValidKey(k) && Admitted(agents[k].spec)
  }
}
