/**
  The resources the operator works on, reduced to the fields that its
  controllers read and write.  A resource is found in a store (a map) under
  its namespaced name.
 */
module Api {

  datatype Option<+T> = None | Some(value: T)

  /** A namespaced name: what identifies a resource of one kind in the cluster. */
  datatype Key = Key(namespace: string, name: string)

  /** An object reference.  Both fields are free text; an empty namespace asks for the default one. */
  datatype ObjectReference = ObjectReference(namespace: string, name: string)

  function NamespaceWithDefault(ref: ObjectReference, defaultNamespace: string): string {
    if ref.namespace != "" then ref.namespace else defaultNamespace
  }

  function RefKey(ref: ObjectReference, defaultNamespace: string): Key {
    Key(NamespaceWithDefault(ref, defaultNamespace), ref.name)
  }

  datatype SubAgent = SubAgent(name: string, agentRef: Option<ObjectReference>, url: string, interactionType: string)

  datatype ToolUpstream = ToolUpstream(
    toolRouteRef: Option<ObjectReference>,
    toolServerRef: Option<ObjectReference>,
    external: Option<string>)

  datatype AgentTool = AgentTool(name: string, upstream: ToolUpstream, propagatedHeaders: seq<string>)

  datatype Protocol = Protocol(name: string, kind: string, port: int, path: string)

  const A2A: string := "A2A"

  /** The name of the container that the operator manages; also what an agent without a name is called. */
  const AGENT_CONTAINER_NAME: string := "agent"

  /** Labels and annotations a user asks for. */
  datatype Metadata = Metadata(labels: map<string, string>, annotations: map<string, string>)

  /** The value of an environment variable; the two JSON documents are kept as the maps they encode. */
  datatype EnvValue =
    | Text(text: string)
    | From(source: string)
    | SubAgentsJson(subAgents: map<string, ResolvedSubAgent>)
    | ToolsJson(tools: map<string, ResolvedTool>)

  datatype EnvVar = EnvVar(name: string, value: EnvValue)

  datatype VolumeMount = VolumeMount(name: string, mountPath: string)

  datatype ResolvedSubAgent = ResolvedSubAgent(url: string, interactionType: string)

  datatype ResolvedTool = ResolvedTool(url: string, propagatedHeaders: seq<string>)

  datatype AgentSpec = AgentSpec(
    framework: string,
    replicas: Option<int>,
    image: string,
    description: string,
    instruction: string,
    model: string,
    subAgents: seq<SubAgent>,
    tools: seq<AgentTool>,
    protocols: seq<Protocol>,
    aiGatewayRef: Option<ObjectReference>,
    env: seq<EnvVar>,
    envFrom: seq<string>,
    volumeMounts: seq<VolumeMount>,
    volumes: seq<string>,
    resources: Option<string>,
    commonMetadata: Option<Metadata>,
    podMetadata: Option<Metadata>)

  /** `ready` is the Ready condition: absent until the first status write. */
  datatype AgentStatus = AgentStatus(url: string, aiGatewayRef: Option<Key>, ready: Option<bool>)

  datatype Agent = Agent(spec: AgentSpec, status: AgentStatus)

  /** The informer cache of agents. */
  type Agents = map<Key, Agent>

  /** What a `Get` answers: found, or not found. */
  function Lookup<V>(store: map<Key, V>, k: Key): Option<V> {
    if k in store then Some(store[k]) else None
  }

  /** A store after one resource was created or replaced (`Some`) or deleted (`None`). */
  function Put<V>(store: map<Key, V>, k: Key, v: Option<V>): map<Key, V> {
    if v.Some? then store[k := v.value] else store - {k}
  }
}
