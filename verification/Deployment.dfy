/**
  The Deployment and the Service of an agent: how a reconcile changes them in
  place, and what stays true of them over all reconciles and user edits.
 */
module Deployment {
  import opened Api

  type Labels = map<string, string>

  const APP_LABEL: string := "app"
  const FRAMEWORK_LABEL: string := "framework"

  datatype Port = Port(name: string, port: int)

  datatype Probe = Probe(path: string, port: int)

  /** The fields the operator sets, and `others` for all that it never touches. */
  datatype Container = Container(
    name: string,
    image: string,
    ports: seq<Port>,
    env: seq<EnvVar>,
    envFrom: seq<string>,
    volumeMounts: seq<VolumeMount>,
    readinessProbe: Option<Probe>,
    resources: string,
    others: string)

  /** What one reconcile computed before it changes the Deployment and the Service. */
  datatype Input = Input(
    name: string,
    framework: string,
    replicas: Option<int>,
    image: string,
    ports: seq<Port>,
    env: seq<EnvVar>,
    envFrom: seq<string>,
    volumeMounts: seq<VolumeMount>,
    readinessProbe: Option<Probe>,
    resources: string,
    volumes: seq<string>,
    commonMetadata: Option<Metadata>,
    podMetadata: Option<Metadata>)

  /** `created` says that the API server has the object: its creation timestamp is set. */
  datatype DeploymentState = DeploymentState(
    created: bool,
    labels: Labels,
    annotations: Labels,
    selector: Option<Labels>,
    replicas: Option<int>,
    templateLabels: Labels,
    templateAnnotations: Labels,
    containers: seq<Container>,
    volumes: seq<string>)

  function LabelsOf(m: Option<Metadata>): Labels {
    if m.Some? then m.value.labels else map[]
  }

  function AnnotationsOf(m: Option<Metadata>): Labels {
    if m.Some? then m.value.annotations else map[]
  }

  function SelectorLabels(name: string): Labels {
    map[APP_LABEL := name]
  }

  function ManagedLabels(input: Input): Labels {
    map[APP_LABEL := input.name, FRAMEWORK_LABEL := input.framework]
  }

  /** Later copies win: common metadata, then pod metadata, then the selector. */
  function PodTemplateLabels(selector: Labels, common: Option<Metadata>, pod: Option<Metadata>): Labels {
    LabelsOf(common) + LabelsOf(pod) + selector
  }

  function PodTemplateAnnotations(common: Option<Metadata>, pod: Option<Metadata>): Labels {
    AnnotationsOf(common) + AnnotationsOf(pod)
  }

  /** The index of the first container of that name, or the number of containers. */
  function FirstNamed(cs: seq<Container>, name: string): (i: nat)
    ensures i <= |cs|
    ensures i < |cs| ==> cs[i].name == name
    ensures forall j :: 0 <= j < i ==> cs[j].name != name
  {
    if cs == [] then 0
    else if cs[0].name == name then 0
    else 1 + FirstNamed(cs[1..], name)
  }

  function SetFields(c: Container, input: Input): Container {
    c.(image := input.image, ports := input.ports, env := input.env, envFrom := input.envFrom,
       volumeMounts := input.volumeMounts, readinessProbe := input.readinessProbe, resources := input.resources)
  }

  function NewContainer(): Container {
    Container(AGENT_CONTAINER_NAME, "", [], [], [], [], None, "", "")
  }

  function WithAgentContainer(cs: seq<Container>): seq<Container> {
    if FirstNamed(cs, AGENT_CONTAINER_NAME) < |cs| then cs else cs + [NewContainer()]
  }

  lemma AgentContainerIsThere(cs: seq<Container>)
    ensures FirstNamed(WithAgentContainer(cs), AGENT_CONTAINER_NAME) == FirstNamed(cs, AGENT_CONTAINER_NAME) < |WithAgentContainer(cs)|
  {
    var i, j := FirstNamed(cs, AGENT_CONTAINER_NAME), FirstNamed(WithAgentContainer(cs), AGENT_CONTAINER_NAME);
    if i == |cs| {
      assert WithAgentContainer(cs)[i] == NewContainer();
      assert forall k :: 0 <= k < i ==> WithAgentContainer(cs)[k] == cs[k];
    }
  }

  function UpdatedContainers(cs: seq<Container>, input: Input): seq<Container> {
    AgentContainerIsThere(cs);
    var cs' := WithAgentContainer(cs);
    var i := FirstNamed(cs, AGENT_CONTAINER_NAME);
    cs'[i := SetFields(cs'[i], input)]
  }

  /** What the mutation makes of a Deployment. */
  function Mutated(d: DeploymentState, input: Input): DeploymentState {
    d.(selector := if d.created then d.selector else Some(SelectorLabels(input.name)),
       templateLabels := PodTemplateLabels(SelectorLabels(input.name), input.commonMetadata, input.podMetadata),
       templateAnnotations := PodTemplateAnnotations(input.commonMetadata, input.podMetadata),
       replicas := Some(if input.replicas.Some? then input.replicas.value else if d.replicas.Some? then d.replicas.value else 0),
       labels := d.labels + LabelsOf(input.commonMetadata) + ManagedLabels(input),
       annotations := d.annotations + AnnotationsOf(input.commonMetadata),
       containers := UpdatedContainers(d.containers, input),
       volumes := input.volumes)
  }

  // ---------------------------------------------------------------- what a mutated Deployment has

  /** The first container of that name. */
  predicate IsFirstNamed(cs: seq<Container>, name: string, i: int) {
    0 <= i < |cs| && cs[i].name == name && forall j :: 0 <= j < i ==> cs[j].name != name
  }

  /** The first container named "agent" has what was computed for it. */
  ghost predicate AgentContainerHas(cs: seq<Container>, input: Input) {
    exists i :: IsFirstNamed(cs, "agent", i) && ContainerHas(cs[i], input)
  }

  predicate ContainerHas(c: Container, input: Input) {
    && c.image == input.image
    && c.ports == input.ports
    && c.env == input.env
    && c.envFrom == input.envFrom
    && c.volumeMounts == input.volumeMounts
    && c.readinessProbe == input.readinessProbe
    && c.resources == input.resources
  }

  function At(labels: Labels, l: string): Option<string> {
    if l in labels then Some(labels[l]) else None
  }

  function UserLabel(m: Option<Metadata>, l: string): Option<string> {
    if m.Some? then At(m.value.labels, l) else None
  }

  function UserAnnotation(m: Option<Metadata>, a: string): Option<string> {
    if m.Some? then At(m.value.annotations, a) else None
  }

  function OrElse(first: Option<string>, second: Option<string>): Option<string> {
    if first.Some? then first else second
  }

  /** The metadata of a Deployment, label by label: the operator's, else the user's, else what was there. */
  ghost predicate MetadataIs(before: DeploymentState, name: string, framework: string, common: Option<Metadata>, d: DeploymentState) {
    && (forall l :: At(d.labels, l) == if l == "app" then Some(name)
                                       else if l == "framework" then Some(framework)
                                       else OrElse(UserLabel(common, l), At(before.labels, l)))
    && (forall a :: At(d.annotations, a) == OrElse(UserAnnotation(common, a), At(before.annotations, a)))
  }

  /** The metadata of the pods: the selector's label, else the pod metadata's, else the common metadata's, and nothing from before. */
  ghost predicate PodMetadataIs(name: string, common: Option<Metadata>, pod: Option<Metadata>, d: DeploymentState) {
    && (forall l :: At(d.templateLabels, l) == if l == "app" then Some(name) else OrElse(UserLabel(pod, l), UserLabel(common, l)))
    && (forall a :: At(d.templateAnnotations, a) == OrElse(UserAnnotation(pod, a), UserAnnotation(common, a)))
  }

  /** The replicas asked for; else as many as there were; else none. */
  predicate ReplicasAre(before: Option<int>, wanted: Option<int>, replicas: Option<int>) {
    replicas == if wanted.Some? then wanted else if before.Some? then before else Some(0)
  }

  /** Everything a reconcile asks for is in the Deployment. */
  ghost predicate DeploymentHas(before: DeploymentState, input: Input, d: DeploymentState) {
    && AgentContainerHas(d.containers, input)
    && d.volumes == input.volumes
    && ReplicasAre(before.replicas, input.replicas, d.replicas)
    && d.selector == (if before.created then before.selector else Some(map["app" := input.name]))
    && MetadataIs(before, input.name, input.framework, input.commonMetadata, d)
    && PodMetadataIs(input.name, input.commonMetadata, input.podMetadata, d)
  }

  /** `Mutate` leaves what was asked for, field by field. */
  lemma MutatedHas(before: DeploymentState, input: Input)
    ensures DeploymentHas(before, input, Mutated(before, input))
  {
    UpdatedHas(before.containers, input);
    MutatedMetadata(before, input);
    MutatedPodMetadata(before, input);
  }

  lemma CreatedHasTheSame(before: DeploymentState, input: Input, d: DeploymentState)
    requires DeploymentHas(before, input, d)
    ensures DeploymentHas(before, input, d.(created := true))
  {
  }

  lemma Overlaid(a: Labels, b: Labels, l: string)
    ensures At(a + b, l) == OrElse(At(b, l), At(a, l))
  {
  }

  lemma UserMetadata(m: Option<Metadata>, l: string)
    ensures At(LabelsOf(m), l) == UserLabel(m, l) && At(AnnotationsOf(m), l) == UserAnnotation(m, l)
  {
  }

  lemma MutatedMetadata(before: DeploymentState, input: Input)
    ensures MetadataIs(before, input.name, input.framework, input.commonMetadata, Mutated(before, input))
  {
    forall l
      ensures At(Mutated(before, input).labels, l) == if l == "app" then Some(input.name)
                                                      else if l == "framework" then Some(input.framework)
                                                      else OrElse(UserLabel(input.commonMetadata, l), At(before.labels, l))
    {
      UserMetadata(input.commonMetadata, l);
      Overlaid(before.labels, LabelsOf(input.commonMetadata), l);
      Overlaid(before.labels + LabelsOf(input.commonMetadata), ManagedLabels(input), l);
    }
    forall a
      ensures At(Mutated(before, input).annotations, a) == OrElse(UserAnnotation(input.commonMetadata, a), At(before.annotations, a))
    {
      UserMetadata(input.commonMetadata, a);
      Overlaid(before.annotations, AnnotationsOf(input.commonMetadata), a);
    }
  }

  lemma MutatedPodMetadata(before: DeploymentState, input: Input)
    ensures PodMetadataIs(input.name, input.commonMetadata, input.podMetadata, Mutated(before, input))
  {
    var common, pod := input.commonMetadata, input.podMetadata;
    forall l
      ensures At(Mutated(before, input).templateLabels, l)
              == if l == "app" then Some(input.name) else OrElse(UserLabel(pod, l), UserLabel(common, l))
    {
      UserMetadata(common, l);
      UserMetadata(pod, l);
      Overlaid(LabelsOf(common), LabelsOf(pod), l);
      Overlaid(LabelsOf(common) + LabelsOf(pod), SelectorLabels(input.name), l);
    }
    forall a
      ensures At(Mutated(before, input).templateAnnotations, a) == OrElse(UserAnnotation(pod, a), UserAnnotation(common, a))
    {
      UserMetadata(common, a);
      UserMetadata(pod, a);
      Overlaid(AnnotationsOf(common), AnnotationsOf(pod), a);
    }
  }

  /** `UpdateAgentContainer` leaves the first agent container with every field that was computed for it. */
  lemma UpdatedHas(cs: seq<Container>, input: Input)
    ensures AgentContainerHas(UpdatedContainers(cs, input), input)
  {
    AgentContainerIsThere(cs);
    var i := FirstNamed(cs, AGENT_CONTAINER_NAME);
    var cs' := UpdatedContainers(cs, input);
    assert forall k :: 0 <= k < i ==> cs'[k] == WithAgentContainer(cs)[k] == cs[k];
    assert IsFirstNamed(cs', "agent", i) && ContainerHas(cs'[i], input);
  }

  /** The object the API server holds, changed in place. */
  class DeploymentObject {
    const created: bool
    var labels: Labels
    var annotations: Labels
    var selector: Option<Labels>
    var replicas: Option<int>
    var templateLabels: Labels
    var templateAnnotations: Labels
    var containers: seq<Container>
    var volumes: seq<string>

    constructor (d: DeploymentState)
      ensures State() == d
    {
      created, labels, annotations, selector, replicas := d.created, d.labels, d.annotations, d.selector, d.replicas;
      templateLabels, templateAnnotations, containers, volumes := d.templateLabels, d.templateAnnotations, d.containers, d.volumes;
    }

    function State(): DeploymentState
      reads this
    {
      DeploymentState(created, labels, annotations, selector, replicas, templateLabels, templateAnnotations, containers, volumes)
    }

    method ApplyCommonMetadata(common: Option<Metadata>)
      modifies this`labels, this`annotations
      ensures labels == old(labels) + LabelsOf(common)
      ensures annotations == old(annotations) + AnnotationsOf(common)
    {
      if common.None? {
        return;
      }
      if common.value.labels != map[] {
        labels := labels + common.value.labels;
      }
      if common.value.annotations != map[] {
        annotations := annotations + common.value.annotations;
      }
    }

    method FindContainerByName(name: string) returns (i: nat)
      ensures i == FirstNamed(containers, name)
    {
      i := 0;
      while i < |containers|
        invariant 0 <= i <= |containers|
        invariant forall j :: 0 <= j < i ==> containers[j].name != name
      {
        if containers[i].name == name {
          return;
        }
        i := i + 1;
      }
    }

    /** Finds the agent container, or appends one, and sets its fields where it stands. */
    method UpdateAgentContainer(input: Input)
      modifies this`containers
      ensures containers == UpdatedContainers(old(containers), input)
    {
      AgentContainerIsThere(containers);
      var i := FindContainerByName(AGENT_CONTAINER_NAME);
      if i == |containers| {
        containers := containers + [NewContainer()];
      }
      var container := containers[i];
      container := container.(image := input.image);
      container := container.(ports := input.ports);
      container := container.(env := input.env);
      container := container.(envFrom := input.envFrom);
      container := container.(volumeMounts := input.volumeMounts);
      container := container.(readinessProbe := input.readinessProbe);
      container := container.(resources := input.resources);
      containers := containers[i := container];
    }

    method Mutate(input: Input)
      modifies this
      ensures State() == Mutated(old(State()), input)
    {
      if !created {
        selector := Some(SelectorLabels(input.name));
      }
      templateLabels := PodTemplateLabels(SelectorLabels(input.name), input.commonMetadata, input.podMetadata);
      templateAnnotations := PodTemplateAnnotations(input.commonMetadata, input.podMetadata);
      if replicas.None? {
        replicas := Some(0);
      }
      if input.replicas.Some? {
        replicas := input.replicas;
      }
      ApplyCommonMetadata(input.commonMetadata);
      labels := labels + ManagedLabels(input);
      UpdateAgentContainer(input);
      volumes := input.volumes;
    }
  }

  // ---------------------------------------------------------------- one mutation

  /** A label of the pod template is the selector's, else the pod metadata's, else the common metadata's. */
  lemma PodLabelPrecedence(name: string, common: Option<Metadata>, pod: Option<Metadata>, l: string)
    ensures
      var labels := PodTemplateLabels(SelectorLabels(name), common, pod);
      && (l in labels <==> l == APP_LABEL || l in LabelsOf(pod) || l in LabelsOf(common))
      && (l in labels ==>
            labels[l] == if l == APP_LABEL then name
                         else if l in LabelsOf(pod) then LabelsOf(pod)[l]
                         else LabelsOf(common)[l])
  {
  }

  lemma FieldsKeepTheFirst(cs: seq<Container>, i: nat, input: Input)
    requires i < |cs| && i == FirstNamed(cs, AGENT_CONTAINER_NAME)
    ensures FirstNamed(cs[i := SetFields(cs[i], input)], AGENT_CONTAINER_NAME) == i
  {
    var cs' := cs[i := SetFields(cs[i], input)];
    assert cs'[i].name == AGENT_CONTAINER_NAME;
    assert forall k :: 0 <= k < i ==> cs'[k] == cs[k];
  }

  /** Mutating again with the same input changes nothing, whether or not the Deployment existed. */
  lemma MutationIsIdempotent(d: DeploymentState, input: Input)
    ensures Mutated(Mutated(d, input), input) == Mutated(d, input)
    ensures Mutated(Mutated(d, input).(created := true), input) == Mutated(d, input).(created := true)
  {
    var once := Mutated(d, input);
    assert once.labels + LabelsOf(input.commonMetadata) + ManagedLabels(input) == once.labels;
    assert once.annotations + AnnotationsOf(input.commonMetadata) == once.annotations;
    ContainersIdempotent(d.containers, input);
  }

  lemma ContainersIdempotent(cs: seq<Container>, input: Input)
    ensures UpdatedContainers(UpdatedContainers(cs, input), input) == UpdatedContainers(cs, input)
  {
    var i := FirstNamed(cs, AGENT_CONTAINER_NAME);
    AgentContainerIsThere(cs);
    var once := UpdatedContainers(cs, input);
    FieldsKeepTheFirst(WithAgentContainer(cs), i, input);
    assert FirstNamed(once, AGENT_CONTAINER_NAME) == i;
    assert SetFields(once[i], input) == once[i];
    assert once[i := once[i]] == once;
  }

  /**
    The frame of a mutation.  Only the first container named "agent" changes,
    and only in the fields the operator sets; at most one container is added,
    at the end; an existing selector stays; and labels and annotations that
    neither the operator nor the common metadata names keep their value.
   */
  lemma MutationFrame(d: DeploymentState, input: Input)
    ensures
      var d' := Mutated(d, input);
      var i := FirstNamed(d.containers, AGENT_CONTAINER_NAME);
      && |d'.containers| == (if i < |d.containers| then |d.containers| else |d.containers| + 1)
      && (forall j :: 0 <= j < |d.containers| && j != i ==> d'.containers[j] == d.containers[j])
      && d'.containers[i].name == AGENT_CONTAINER_NAME
      && (i < |d.containers| ==> d'.containers[i].others == d.containers[i].others)
      && (d.created ==> d'.selector == d.selector)
      && (forall l :: l !in ManagedLabels(input) && l !in LabelsOf(input.commonMetadata) ==>
            (l in d'.labels <==> l in d.labels) && (l in d.labels ==> d'.labels[l] == d.labels[l]))
      && (forall a :: a !in AnnotationsOf(input.commonMetadata) ==>
            (a in d'.annotations <==> a in d.annotations) && (a in d.annotations ==> d'.annotations[a] == d.annotations[a]))
  {
    AgentContainerIsThere(d.containers);
  }

  // ---------------------------------------------------------------- the service

  datatype ServiceState = ServiceState(labels: Labels, annotations: Labels, ports: seq<Port>, selector: Labels)

  /** Everything a reconcile asks for is in the Service. */
  ghost predicate ServiceHas(before: ServiceState, input: Input, s: ServiceState) {
    && s.ports == input.ports
    && s.selector == map["app" := input.name]
    && (forall l :: At(s.labels, l) == if l == "app" then Some(input.name)
                                       else OrElse(UserLabel(input.commonMetadata, l), At(before.labels, l)))
    && (forall a :: At(s.annotations, a) == OrElse(UserAnnotation(input.commonMetadata, a), At(before.annotations, a)))
  }

  /** So does the mutation of the Service. */
  lemma MutatedServiceHas(before: ServiceState, input: Input)
    ensures ServiceHas(before, input, MutatedService(before, input))
  {
  }

  class ServiceObject {
    var labels: Labels
    var annotations: Labels
    var ports: seq<Port>
    var selector: Labels

    constructor (s: ServiceState)
      ensures State() == s
    {
      labels, annotations, ports, selector := s.labels, s.annotations, s.ports, s.selector;
    }

    function State(): ServiceState
      reads this
    {
      ServiceState(labels, annotations, ports, selector)
    }

    method Mutate(input: Input)
      modifies this
      ensures State() == MutatedService(old(State()), input)
    {
      var servicePorts: seq<Port> := [];
      var i := 0;
      while i < |input.ports|
        invariant 0 <= i <= |input.ports|
        invariant servicePorts == input.ports[..i]
      {
        servicePorts := servicePorts + [Port(input.ports[i].name, input.ports[i].port)];
        i := i + 1;
      }
      if input.commonMetadata.Some? {
        labels := labels + input.commonMetadata.value.labels;
        annotations := annotations + input.commonMetadata.value.annotations;
      }
      labels := labels + map[APP_LABEL := input.name];
      ports := servicePorts;
      selector := SelectorLabels(input.name);
    }
  }

  function MutatedService(s: ServiceState, input: Input): ServiceState {
    ServiceState(
      s.labels + LabelsOf(input.commonMetadata) + map[APP_LABEL := input.name],
      s.annotations + AnnotationsOf(input.commonMetadata),
      input.ports,
      SelectorLabels(input.name))
  }

  lemma ServiceMutationIsIdempotent(s: ServiceState, input: Input)
    ensures MutatedService(MutatedService(s, input), input) == MutatedService(s, input)
  {
    var once := MutatedService(s, input);
    assert once.labels + LabelsOf(input.commonMetadata) + map[APP_LABEL := input.name] == once.labels;
    assert once.annotations + AnnotationsOf(input.commonMetadata) == once.annotations;
  }

  // ---------------------------------------------------------------- whole runs

  /** The two objects of one agent, when they exist. */
  datatype Objects = Objects(deployment: Option<DeploymentState>, service: Option<ServiceState>)

  const NewDeployment: DeploymentState := DeploymentState(false, map[], map[], None, None, map[], map[], [], [])
  const NewService: ServiceState := ServiceState(map[], map[], [], map[])

  datatype Event =
    | Reconcile(input: Input)
    | EditDeployment(now: Option<DeploymentState>)
    | EditService(service: Option<ServiceState>)

  function Selects(selector: Option<Labels>, labels: Labels): bool {
    selector.Some? && forall l <- selector.value :: l in labels && labels[l] == selector.value[l]
  }

  /** An edit by someone else, as far as the API server lets it through: selectors are immutable and must match the template. */
  predicate Allowed(o: Objects, e: Event) {
    match e
    case Reconcile(_) => true
    case EditDeployment(None) => true
    case EditDeployment(Some(d)) =>
      && o.deployment.Some? && d.created
      && d.selector == o.deployment.value.selector
      && Selects(d.selector, d.templateLabels)
    case EditService(_) => true
  }

  function After(o: Objects, e: Event): Objects {
    match e
    case Reconcile(input) =>
      var d := if o.deployment.Some? then o.deployment.value else NewDeployment;
      var s := if o.service.Some? then o.service.value else NewService;
      Objects(Some(Mutated(d, input).(created := true)), if input.ports == [] then None else Some(MutatedService(s, input)))
    case EditDeployment(now) => o.(deployment := now)
    case EditService(service) => o.(service := service)
  }

  /** A history of the objects of the agent of that name, from before its first reconcile. */
  ghost predicate IsHistory(name: string, run: seq<Objects>, events: seq<Event>) {
    && |run| == |events| + 1
    && run[0] == Objects(None, None)
    && forall i :: 0 <= i < |events| ==>
         && Allowed(run[i], events[i])
         && run[i + 1] == After(run[i], events[i])
         && (events[i].Reconcile? ==> events[i].input.name == name)
  }

  ghost predicate SelectorIntact(name: string, o: Objects) {
    o.deployment.Some? ==>
      && o.deployment.value.created
      && o.deployment.value.selector == Some(SelectorLabels(name))
      && Selects(o.deployment.value.selector, o.deployment.value.templateLabels)
  }

  lemma EventKeepsSelector(name: string, o: Objects, e: Event)
    requires SelectorIntact(name, o) && Allowed(o, e) && (e.Reconcile? ==> e.input.name == name)
    ensures SelectorIntact(name, After(o, e))
    ensures e.Reconcile? && After(o, e).service.Some? ==>
              After(o, e).deployment.Some? && Some(After(o, e).service.value.selector) == After(o, e).deployment.value.selector
  {
    if e.Reconcile? {
      PodLabelPrecedence(name, e.input.commonMetadata, e.input.podMetadata, APP_LABEL);
    }
  }

  /**
    Selectors over whole histories.  Whatever labels users ask for or edit in
    between, a Deployment that exists has the selector it was created with,
    its pod template carries those labels, and after every reconcile the
    Service selects exactly the same pods.
   */
  lemma {:induction false} SelectorsNeverDrift(name: string, run: seq<Objects>, events: seq<Event>, i: nat)
    requires IsHistory(name, run, events) && i < |run|
    ensures SelectorIntact(name, run[i])
    ensures i > 0 && events[i - 1].Reconcile? && run[i].service.Some? ==>
              run[i].deployment.Some? && Some(run[i].service.value.selector) == run[i].deployment.value.selector
  {
    if i > 0 {
      SelectorsNeverDrift(name, run, events, i - 1);
      EventKeepsSelector(name, run[i - 1], events[i - 1]);
    }
  }
}
