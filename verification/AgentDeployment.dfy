/**
  From an agent and its resolution to its Deployment: the pieces of
  `AgentEnvironment` and `Deployment` put together as the reconcile does.
 */
module AgentDeployment {
  import opened Api
  import opened AgentUrls
  import opened Resolution
  import opened AgentEnvironment
  import D = Deployment

  const GOOGLE_ADK: string := "google-adk"
  const MSAF: string := "msaf"
  const DEFAULT_IMAGE_ADK: string := "ghcr.io/agentic-layer/agent-template-adk:0.8.0"
  const DEFAULT_IMAGE_MSAF: string := "ghcr.io/agentic-layer/agent-template-msaf:0.1.0"
  const FALLBACK_IMAGE: string := "invalid"
  const DEFAULT_RESOURCES: string := "requests: memory 300Mi, cpu 100m; limits: memory 500Mi, cpu 500m"

  function EffectiveFramework(spec: AgentSpec, config: Option<RuntimeConfig>): string {
    if spec.framework != "" then spec.framework
    else if config.Some? && config.value.defaultFramework != "" then config.value.defaultFramework
    else GOOGLE_ADK
  }

  function TemplateImage(framework: string, config: Option<RuntimeConfig>): string {
    if framework == GOOGLE_ADK then
      if config.Some? && config.value.googleAdkImage != "" then config.value.googleAdkImage else DEFAULT_IMAGE_ADK
    else if framework == MSAF then
      if config.Some? && config.value.msafImage != "" then config.value.msafImage else DEFAULT_IMAGE_MSAF
    else
      FALLBACK_IMAGE
  }

  /** The framework rule of the admission webhook. */
  predicate FrameworkAdmitted(spec: AgentSpec) {
    spec.framework != "" && spec.image == "" ==> spec.framework in {GOOGLE_ADK, MSAF}
  }

  /** The enumeration that the configuration's schema allows. */
  predicate ConfigAdmitted(config: Option<RuntimeConfig>) {
    config.Some? ==> config.value.defaultFramework in {"", GOOGLE_ADK, MSAF}
  }

  function ImageOf(spec: AgentSpec, config: Option<RuntimeConfig>): string {
    if spec.image != "" then spec.image else TemplateImage(EffectiveFramework(spec, config), config)
  }

  /**
    The fallback image is out of reach: an admitted agent runs its own image,
    or an image that the configuration or the operator has for its framework.
   */
  lemma AdmittedAgentsHaveARealImage(spec: AgentSpec, config: Option<RuntimeConfig>)
    requires FrameworkAdmitted(spec) && ConfigAdmitted(config)
    ensures
      || (spec.image != "" && ImageOf(spec, config) == spec.image)
      || (config.Some? && ImageOf(spec, config) in {config.value.googleAdkImage, config.value.msafImage} - {""})
      || ImageOf(spec, config) in {DEFAULT_IMAGE_ADK, DEFAULT_IMAGE_MSAF}
  {
  }

  /** Without the webhook's rule the fallback is what runs, exactly for frameworks that have no template. */
  lemma FallbackRunsIff(spec: AgentSpec, config: Option<RuntimeConfig>)
    requires spec.image == ""
    requires config.Some? ==> FALLBACK_IMAGE !in {config.value.googleAdkImage, config.value.msafImage}
    ensures ImageOf(spec, config) == FALLBACK_IMAGE <==> EffectiveFramework(spec, config) !in {GOOGLE_ADK, MSAF}
  {
    assert |DEFAULT_IMAGE_ADK| != |FALLBACK_IMAGE| && |DEFAULT_IMAGE_MSAF| != |FALLBACK_IMAGE|;
  }

  function GatewayUrl(k: Key, g: Gateway): string {
    "http://" + k.name + "." + k.namespace + ".svc.cluster.local.:" + DecimalInt(g.port)
  }

  function GatewayUrlOf(gateway: Option<(Key, Gateway)>): Option<string> {
    if gateway.None? then None else Some(GatewayUrl(gateway.value.0, gateway.value.1))
  }

  function Ports(protocols: seq<Protocol>): seq<D.Port> {
    seq(|protocols|, i requires 0 <= i < |protocols| => D.Port(protocols[i].name, protocols[i].port))
  }

  function ReadinessProbe(protocols: seq<Protocol>): Option<D.Probe> {
    match FirstA2A(protocols)
    case None => None
    case Some(p) => Some(D.Probe(p.path + AGENT_CARD_ENDPOINT, p.port))
  }

  function InputOf(k: Key, spec: AgentSpec, config: Option<RuntimeConfig>, env: seq<EnvVar>): D.Input {
    D.Input(
      k.name,
      EffectiveFramework(spec, config),
      spec.replicas,
      ImageOf(spec, config),
      Ports(spec.protocols),
      env,
      spec.envFrom,
      spec.volumeMounts,
      ReadinessProbe(spec.protocols),
      if spec.resources.Some? then spec.resources.value else DEFAULT_RESOURCES,
      spec.volumes,
      spec.commonMetadata,
      spec.podMetadata)
  }

  ghost predicate IsEnvironment(k: Key, spec: AgentSpec, r: Resolution, env: seq<EnvVar>)
    requires r.Resolved?
  {
    IsContainerEnvironment(k, spec, r.subAgents, r.tools, GatewayUrlOf(r.gateway), env)
  }

  // ---------------------------------------------------------------- what serves an agent

  /** The framework that counts: the spec's, else the configuration's default, else the built-in one. */
  predicate FrameworkIs(spec: AgentSpec, config: Option<RuntimeConfig>, framework: string) {
    framework == if spec.framework != "" then spec.framework
                 else if config.Some? && config.value.defaultFramework != "" then config.value.defaultFramework
                 else "google-adk"
  }

  /** An image the configuration has, else the built-in one. */
  function Configured(image: string, builtIn: string): string {
    if image != "" then image else builtIn
  }

  /** The spec's own image, else the one for its framework. */
  ghost predicate ImageIs(spec: AgentSpec, config: Option<RuntimeConfig>, image: string) {
    && (spec.image != "" ==> image == spec.image)
    && (spec.image == "" && FrameworkIs(spec, config, "google-adk") ==>
          image == Configured(if config.Some? then config.value.googleAdkImage else "", "ghcr.io/agentic-layer/agent-template-adk:0.8.0"))
    && (spec.image == "" && FrameworkIs(spec, config, "msaf") ==>
          image == Configured(if config.Some? then config.value.msafImage else "", "ghcr.io/agentic-layer/agent-template-msaf:0.1.0"))
    && (spec.image == "" && !FrameworkIs(spec, config, "google-adk") && !FrameworkIs(spec, config, "msaf") ==> image == "invalid")
  }

  /** One port for each protocol, in order. */
  predicate PortsAre(protocols: seq<Protocol>, ports: seq<D.Port>) {
    && |ports| == |protocols|
    && forall i :: 0 <= i < |ports| ==> ports[i].name == protocols[i].name && ports[i].port == protocols[i].port
  }

  /** The card of the first A2A protocol is probed; without one nothing is. */
  ghost predicate ProbeIs(protocols: seq<Protocol>, probe: Option<D.Probe>) {
    && (forall i :: IsFirstA2A(protocols, i) ==>
          probe == Some(D.Probe(protocols[i].path + "/.well-known/agent-card.json", protocols[i].port)))
    && ((forall i :: !IsFirstA2A(protocols, i)) ==> probe == None)
  }

  /** The URL of the Service of the gateway. */
  ghost predicate GatewayUrlIs(gateway: Option<(Key, Gateway)>, url: Option<string>) {
    match gateway
    case None => url == None
    case Some((k, g)) =>
      exists digits: string :: Writes(digits, g.port)
                               && url == Some("http://" + k.name + "." + k.namespace + ".svc.cluster.local.:" + digits)
  }

  ghost predicate EnvironmentServes(k: Key, spec: AgentSpec, r: Resolution, env: seq<EnvVar>)
    requires r.Resolved?
  {
    exists url :: GatewayUrlIs(r.gateway, url) && EnvironmentSays(k, spec, r.subAgents, r.tools, url, env)
  }

  /** The container runs the agent that the spec describes with what it was resolved to. */
  ghost predicate ContainerServes(k: Key, spec: AgentSpec, r: Resolution, c: D.Container)
    requires r.Resolved?
  {
    && ImageIs(spec, r.config, c.image)
    && PortsAre(spec.protocols, c.ports)
    && EnvironmentServes(k, spec, r, c.env)
    && c.envFrom == spec.envFrom
    && c.volumeMounts == spec.volumeMounts
    && ProbeIs(spec.protocols, c.readinessProbe)
    && c.resources == (if spec.resources.Some? then spec.resources.value
                       else "requests: memory 300Mi, cpu 100m; limits: memory 500Mi, cpu 500m")
  }

  /** The Deployment serves the agent; what was there before counts where the spec says nothing. */
  ghost predicate DeploymentServes(k: Key, spec: AgentSpec, r: Resolution, before: D.DeploymentState, d: D.DeploymentState)
    requires r.Resolved?
  {
    && (exists i :: D.IsFirstNamed(d.containers, "agent", i) && ContainerServes(k, spec, r, d.containers[i]))
    && d.volumes == spec.volumes
    && D.ReplicasAre(before.replicas, spec.replicas, d.replicas)
    && d.selector == (if before.created then before.selector else Some(map["app" := k.name]))
    && (exists framework :: FrameworkIs(spec, r.config, framework) && D.MetadataIs(before, k.name, framework, spec.commonMetadata, d))
    && D.PodMetadataIs(k.name, spec.commonMetadata, spec.podMetadata, d)
  }

  /** The Service serves the agent. */
  ghost predicate ServiceServes(k: Key, spec: AgentSpec, before: D.ServiceState, s: D.ServiceState) {
    && PortsAre(spec.protocols, s.ports)
    && s.selector == map["app" := k.name]
    && (forall l :: D.At(s.labels, l) == if l == "app" then Some(k.name)
                                         else D.OrElse(D.UserLabel(spec.commonMetadata, l), D.At(before.labels, l)))
    && (forall a :: D.At(s.annotations, a) == D.OrElse(D.UserAnnotation(spec.commonMetadata, a), D.At(before.annotations, a)))
  }

  lemma GatewayUrlIsRight(gateway: Option<(Key, Gateway)>)
    ensures GatewayUrlIs(gateway, GatewayUrlOf(gateway))
  {
    if gateway.Some? {
      WrittenNumber(gateway.value.1.port);
      var digits := DecimalInt(gateway.value.1.port);
      assert GatewayUrlOf(gateway)
          == Some("http://" + gateway.value.0.name + "." + gateway.value.0.namespace + ".svc.cluster.local.:" + digits);
    }
  }

  lemma InputIsRight(k: Key, spec: AgentSpec, r: Resolution, env: seq<EnvVar>)
    requires r.Resolved?
    ensures
      var input := InputOf(k, spec, r.config, env);
      && FrameworkIs(spec, r.config, input.framework)
      && ImageIs(spec, r.config, input.image)
      && PortsAre(spec.protocols, input.ports)
      && ProbeIs(spec.protocols, input.readinessProbe)
  {
    FirstA2AIsFirst(spec.protocols);
  }

  lemma ContainerHasMeansServes(k: Key, spec: AgentSpec, r: Resolution, env: seq<EnvVar>, c: D.Container)
    requires r.Resolved? && IsEnvironment(k, spec, r, env) && D.ContainerHas(c, InputOf(k, spec, r.config, env))
    ensures ContainerServes(k, spec, r, c)
  {
    InputIsRight(k, spec, r, env);
    GatewayUrlIsRight(r.gateway);
    ContainerEnvironmentSays(k, spec, r.subAgents, r.tools, GatewayUrlOf(r.gateway), env);
    assert EnvironmentServes(k, spec, r, c.env);
  }

  lemma DeploymentHasMeansServes(k: Key, spec: AgentSpec, r: Resolution, env: seq<EnvVar>, before: D.DeploymentState, d: D.DeploymentState)
    requires r.Resolved? && IsEnvironment(k, spec, r, env)
    requires D.DeploymentHas(before, InputOf(k, spec, r.config, env), d)
    ensures DeploymentServes(k, spec, r, before, d)
  {
    var input := InputOf(k, spec, r.config, env);
    InputIsRight(k, spec, r, env);
    var i :| D.IsFirstNamed(d.containers, "agent", i) && D.ContainerHas(d.containers[i], input);
    ContainerHasMeansServes(k, spec, r, env, d.containers[i]);
    assert D.MetadataIs(before, k.name, input.framework, spec.commonMetadata, d);
  }

  /** The Deployment after a reconcile serves the agent, whatever was there before. */
  lemma DeploymentServesAgent(k: Key, spec: AgentSpec, r: Resolution, env: seq<EnvVar>, before: D.DeploymentState)
    requires r.Resolved? && IsEnvironment(k, spec, r, env)
    ensures DeploymentServes(k, spec, r, before, D.Mutated(before, InputOf(k, spec, r.config, env)).(created := true))
  {
    var input := InputOf(k, spec, r.config, env);
    D.MutatedHas(before, input);
    D.CreatedHasTheSame(before, input, D.Mutated(before, input));
    DeploymentHasMeansServes(k, spec, r, env, before, D.Mutated(before, input).(created := true));
  }

  /** And so does the Service. */
  lemma ServiceServesAgent(k: Key, spec: AgentSpec, config: Option<RuntimeConfig>, env: seq<EnvVar>, before: D.ServiceState)
    ensures ServiceServes(k, spec, before, D.MutatedService(before, InputOf(k, spec, config, env)))
  {
    D.MutatedServiceHas(before, InputOf(k, spec, config, env));
  }

  /** Creates the Deployment or changes it in place; fails only on a missing interaction type. */
  method EnsureDeployment(k: Key, spec: AgentSpec, r: Resolution, existing: Option<D.DeploymentState>)
    returns (env: seq<EnvVar>, deployment: Option<D.DeploymentState>)
    requires r.Resolved?
    ensures deployment.Some? <==> EnvironmentBuildable(r.subAgents)
    ensures deployment.Some? ==>
              && IsEnvironment(k, spec, r, env)
              && deployment.value
                 == D.Mutated(if existing.Some? then existing.value else D.NewDeployment, InputOf(k, spec, r.config, env)).(created := true)
              && DeploymentServes(k, spec, r, if existing.Some? then existing.value else D.NewDeployment, deployment.value)
  {
    var containerPorts: seq<D.Port> := [];
    var i := 0;
    while i < |spec.protocols|
      invariant 0 <= i <= |spec.protocols|
      invariant containerPorts == Ports(spec.protocols)[..i]
    {
      containerPorts := containerPorts + [D.Port(spec.protocols[i].name, spec.protocols[i].port)];
      i := i + 1;
    }
    var vars := ContainerEnvironment(k, spec, r.subAgents, r.tools, GatewayUrlOf(r.gateway));
    if vars.None? {
      return [], None;
    }
    env := vars.value;
    var target := new D.DeploymentObject(if existing.Some? then existing.value else D.NewDeployment);
    assert containerPorts == Ports(spec.protocols);
    var input := InputOf(k, spec, r.config, env).(ports := containerPorts);
    target.Mutate(input);
    deployment := Some(target.State().(created := true));
    DeploymentServesAgent(k, spec, r, env, if existing.Some? then existing.value else D.NewDeployment);
  }

  /**
    A second reconcile with the same resolution leaves the Deployment as the
    first made it, whatever orders maps are ranged over in, provided that
    sub-agents whose sanitized names collide have the same entry.
   */
  lemma ReconcilingAgainChangesNothing(k: Key, spec: AgentSpec, r: Resolution, before: D.DeploymentState,
                                       env: seq<EnvVar>, env': seq<EnvVar>)
    requires r.Resolved? && IsEnvironment(k, spec, r, env) && IsEnvironment(k, spec, r, env')
    requires CollisionsAgree(r.subAgents)
    ensures
      var once := D.Mutated(before, InputOf(k, spec, r.config, env)).(created := true);
      D.Mutated(once, InputOf(k, spec, r.config, env')).(created := true) == once
  {
    EnvironmentIsDetermined(k, spec, r.subAgents, r.tools, GatewayUrlOf(r.gateway), env, env');
    D.MutationIsIdempotent(before, InputOf(k, spec, r.config, env));
  }
}
