/**
  The agent controller as a protocol.

  The state is the world as the informer caches show it, what was last
  deployed for each agent, the work queue (a set) and the reconciles in
  flight.  A reconcile makes one look-up at a time, and anything may change
  between two of them.  The theorem is that no wake-up is lost: in every run
  an agent that is neither queued nor in flight is up to date.
 */
module AgentProtocol {
  import opened Api
  import opened AgentUrls
  import opened Resolution

  /** What the Deployment and the Service of an agent were last made from. */
  datatype Applied = Applied(spec: AgentSpec, resolution: Resolution)

  /** A reconcile in progress: the spec it fetched and the answers so far. */
  datatype Flight = Flight(spec: AgentSpec, answers: seq<Answer>, deployed: bool)

  datatype State = State(world: World, applied: map<Key, Applied>, queue: set<Key>, flights: map<Key, Flight>)

  datatype Step =
    | ChangeAgent(k: Key, spec: Option<AgentSpec>)
    | ChangeRoute(k: Key, url: Option<string>)
    | ChangeServer(k: Key, url: Option<string>)
    | ChangeGateway(k: Key, gateway: Option<Gateway>)
    | ChangeConfig(k: Key, config: Option<RuntimeConfig>)
    | ChangeDeployment(k: Key, found: Option<Applied>)
    | Enqueue(k: Key)
    | Start(k: Key)
    | AskNext(k: Key, answer: Answer)
    | Deploy(k: Key)
    | WriteReady(k: Key)
    | WriteNotReady(k: Key)
    | Fails(k: Key, statusWritten: bool)

  function ReadyStatus(k: Key, spec: AgentSpec, gateway: Option<(Key, Gateway)>): AgentStatus {
    AgentStatus(CardUrl(k, spec), if gateway.Some? then Some(gateway.value.0) else None, Some(true))
  }

  const NotReadyStatus: AgentStatus := AgentStatus("", None, Some(false))

  /** The status that a reconcile with this outcome ends with. */
  function StatusOf(k: Key, spec: AgentSpec, r: Resolution): AgentStatus {
    match r
    case Failed => NotReadyStatus
    case Resolved(_, _, gateway, _) => ReadyStatus(k, spec, gateway)
  }

  /** What a status says of an agent that was resolved to this, or was not. */
  ghost predicate StatusSays(k: Key, spec: AgentSpec, r: Resolution, status: AgentStatus) {
    match r
    case Failed => status.url == "" && status.aiGatewayRef == None && status.ready == Some(false)
    case Resolved(_, _, gateway, _) =>
      && status.ready == Some(true)
      && status.aiGatewayRef == (match gateway case None => None case Some((name, _)) => Some(name))
      && (forall i :: IsFirstA2A(spec.protocols, i) ==>
            Addresses(status.url, k, spec.protocols[i].port, spec.protocols[i].path + "/.well-known/agent-card.json"))
      && ((forall i :: !IsFirstA2A(spec.protocols, i)) ==> status.url == "")
  }

  lemma StatusOfSays(k: Key, spec: AgentSpec, r: Resolution)
    ensures StatusSays(k, spec, r, StatusOf(k, spec, r))
  {
    UrlsAddressTheFirstA2A(k, spec);
  }

  /** The agents that the watch on the changed resource enqueues. */
  function WokenBy(change: Change, agents: Agents): set<Key> {
    set k | k in agents && Wakes(change, k, agents[k].spec)
  }

  /** A stage of look-ups is over: the configuration, the sub-agents, the tools, all. */
  predicate StageEnd(spec: AgentSpec, n: nat) {
    || n == 1
    || n == 1 + |spec.subAgents|
    || n == 1 + |spec.subAgents| + |spec.tools|
    || n == |Plan(spec)|
  }

  /** A reconcile that gives up: at the end of a stage some look-up had failed. */
  predicate GivesUp(f: Flight) {
    StageEnd(f.spec, |f.answers|) && NotResolved in f.answers
  }

  predicate Complete(f: Flight) {
    |f.answers| == |Plan(f.spec)|
  }

  /** The agent that the reconcile fetched is still the one in the cluster, so a status write does not conflict. */
  predicate NoConflict(s: State, k: Key)
    requires k in s.flights
  {
    k in s.world.agents && s.world.agents[k].spec == s.flights[k].spec
  }

  ghost predicate Enabled(s: State, step: Step) {
    match step
    case Start(k) => k in s.queue && k !in s.flights
    case AskNext(k, answer) =>
      && k in s.flights && |s.flights[k].answers| < |Plan(s.flights[k].spec)| && !GivesUp(s.flights[k])
      && MayAnswer(s.world, k.namespace, Plan(s.flights[k].spec)[|s.flights[k].answers|], answer)
    case Deploy(k) =>
      k in s.flights && Complete(s.flights[k]) && Outcome(s.flights[k].spec, s.flights[k].answers).Resolved?
    case WriteReady(k) => k in s.flights && Complete(s.flights[k]) && s.flights[k].deployed && NoConflict(s, k)
    case WriteNotReady(k) =>
      && k in s.flights && NoConflict(s, k)
      && (GivesUp(s.flights[k]) || (Complete(s.flights[k]) && Outcome(s.flights[k].spec, s.flights[k].answers).Failed?))
    case Fails(k, statusWritten) => k in s.flights && (statusWritten ==> NoConflict(s, k))
    case _ => true
  }

  function GatewayOf(r: Resolution): Option<(Key, Gateway)> {
    if r.Resolved? then r.gateway else None
  }

  /** A status write; if it changes the status, the agent itself and the agents that reference it are enqueued. */
  function WriteStatus(s: State, k: Key, status: AgentStatus): State
    requires k in s.world.agents
  {
    var agents' := s.world.agents[k := s.world.agents[k].(status := status)];
    if status == s.world.agents[k].status then s
    else s.(world := s.world.(agents := agents'), queue := s.queue + {k} + WokenBy(OfAgent(k), agents'))
  }

  /** The new agent: an update of a spec keeps the status, a new agent has none. */
  function WithSpec(agents: Agents, k: Key, spec: Option<AgentSpec>): Option<Agent> {
    if spec.None? then None
    else if k in agents then Some(agents[k].(spec := spec.value))
    else Some(Agent(spec.value, AgentStatus("", None, None)))
  }

  ghost function Apply(s: State, step: Step): State
    requires Enabled(s, step)
  {
    match step
    case ChangeAgent(k, spec) =>
      var agents' := Put(s.world.agents, k, WithSpec(s.world.agents, k, spec));
      s.(world := s.world.(agents := agents'), queue := s.queue + {k} + WokenBy(OfAgent(k), agents'))
    case ChangeRoute(k, url) =>
      s.(world := s.world.(routes := Put(s.world.routes, k, url)), queue := s.queue + WokenBy(OfRoute(k), s.world.agents))
    case ChangeServer(k, url) =>
      s.(world := s.world.(servers := Put(s.world.servers, k, url)), queue := s.queue + WokenBy(OfServer(k), s.world.agents))
    case ChangeGateway(k, gateway) =>
      s.(world := s.world.(gateways := Put(s.world.gateways, k, gateway)), queue := s.queue + WokenBy(OfGateway(k), s.world.agents))
    case ChangeConfig(k, config) =>
      s.(world := s.world.(configs := Put(s.world.configs, k, config)), queue := s.queue + WokenBy(OfConfig(k), s.world.agents))
    case ChangeDeployment(k, found) =>
      s.(applied := Put(s.applied, k, found), queue := s.queue + {k})
    case Enqueue(k) =>
      s.(queue := s.queue + {k})
    case Start(k) =>
      var s' := s.(queue := s.queue - {k});
      if k in s.world.agents then s'.(flights := s.flights[k := Flight(s.world.agents[k].spec, [], false)]) else s'
    case AskNext(k, answer) =>
      s.(flights := s.flights[k := s.flights[k].(answers := s.flights[k].answers + [answer])])
    case Deploy(k) =>
      var f := s.flights[k];
      s.(applied := s.applied[k := Applied(f.spec, Outcome(f.spec, f.answers))], flights := s.flights[k := f.(deployed := true)])
    case WriteReady(k) =>
      var f := s.flights[k];
      WriteStatus(s, k, ReadyStatus(k, f.spec, GatewayOf(Outcome(f.spec, f.answers)))).(flights := s.flights - {k})
    case WriteNotReady(k) =>
      WriteStatus(s, k, NotReadyStatus).(flights := s.flights - {k})
    case Fails(k, statusWritten) =>
      var s' := if statusWritten then WriteStatus(s, k, NotReadyStatus) else s;
      s'.(queue := s'.queue + {k}, flights := s.flights - {k})
  }

  ghost predicate Next(s: State, s': State) {
    exists step :: Enabled(s, step) && s' == Apply(s, step)
  }

  /** The manager has just started: every agent is queued. */
  ghost predicate Init(s: State) {
    s.world.agents.Keys <= s.queue && s.flights == map[]
  }

  ghost predicate StepAt(run: seq<State>, i: nat)
    requires i < |run| - 1
  {
    Next(run[i], run[i + 1])
  }

  ghost predicate IsRun(run: seq<State>) {
    && run != []
    && Init(run[0])
    && forall i {:trigger StepAt(run, i)} :: 0 <= i < |run| - 1 ==> StepAt(run, i)
  }

  // ---------------------------------------------------------------- no wake-up is lost

  /** Status and deployment are what this outcome calls for. */
  ghost predicate Follows(s: State, k: Key, r: Resolution)
    requires k in s.world.agents
  {
    var agent := s.world.agents[k];
    && agent.status == StatusOf(k, agent.spec, r)
    && (r.Resolved? ==> k in s.applied && s.applied[k] == Applied(agent.spec, r))
  }

  /** Status and deployment are what a reconcile may make of the world as it is. */
  ghost predicate UpToDate(s: State, k: Key)
    requires k in s.world.agents
  {
    exists r :: MayResolve(s.world, k, s.world.agents[k].spec, r) && Follows(s, k, r)
  }

  /** A reconcile all of whose answers are still true. */
  ghost predicate GoodFlight(s: State, k: Key)
    requires k in s.flights && k in s.world.agents
  {
    var f := s.flights[k];
    && f.spec == s.world.agents[k].spec
    && TrueSoFar(s.world, k.namespace, f.spec, f.answers)
    && (f.deployed ==>
          && Complete(f) && k in s.applied && Outcome(f.spec, f.answers).Resolved?
          && s.applied[k] == Applied(f.spec, Outcome(f.spec, f.answers)))
  }

  ghost predicate Settled(s: State, k: Key)
    requires k in s.world.agents
  {
    if k in s.flights then GoodFlight(s, k) else UpToDate(s, k)
  }

  ghost predicate Inv(s: State) {
    forall k <- s.world.agents :: k !in s.queue ==> Settled(s, k)
  }

  /** A change of one resource that does not wake the agent leaves it settled. */
  lemma ChangeKeepsSettled(change: Change, s: State, s': State, k: Key)
    requires DifferOnlyIn(change, s.world, s'.world)
    requires k in s.world.agents && k in s'.world.agents && s'.world.agents[k] == s.world.agents[k]
    requires !Wakes(change, k, s.world.agents[k].spec)
    requires Lookup(s'.flights, k) == Lookup(s.flights, k) && Lookup(s'.applied, k) == Lookup(s.applied, k)
    requires Settled(s, k)
    ensures Settled(s', k)
  {
    assert k in s.applied ==> s.applied[k] == s'.applied[k];
    if k in s.flights {
      assert s.flights[k] == s'.flights[k];
      TrueSoFarFrame(change, s.world, s'.world, k, s.world.agents[k].spec, s.flights[k].answers);
    } else {
      var r :| MayResolve(s.world, k, s.world.agents[k].spec, r) && Follows(s, k, r);
      ResolutionFrame(change, s.world, s'.world, k, s.world.agents[k].spec, r);
      assert Follows(s', k, r);
    }
  }

  lemma PutIsSameBut<V>(store: map<Key, V>, k: Key, v: Option<V>)
    ensures SameBut(store, Put(store, k, v), k)
  {
  }

  lemma EnvironmentChangeKeepsInv(s: State, step: Step)
    requires Inv(s) && Enabled(s, step)
    requires step.ChangeRoute? || step.ChangeServer? || step.ChangeGateway? || step.ChangeConfig?
    ensures Inv(Apply(s, step))
  {
    var s' := Apply(s, step);
    if step.ChangeConfig? {
      assert forall k <- s'.world.agents :: k in WokenBy(OfConfig(step.k), s.world.agents);
      return;
    }
    forall k | k in s'.world.agents && k !in s'.queue
      ensures Settled(s', k)
    {
      assert Settled(s, k);
      match step {
        case ChangeRoute(r, url) =>
          PutIsSameBut(s.world.routes, r, url);
          assert k !in WokenBy(OfRoute(r), s.world.agents);
          ChangeKeepsSettled(OfRoute(r), s, s', k);
        case ChangeServer(r, url) =>
          PutIsSameBut(s.world.servers, r, url);
          assert k !in WokenBy(OfServer(r), s.world.agents);
          ChangeKeepsSettled(OfServer(r), s, s', k);
        case ChangeGateway(r, gateway) =>
          PutIsSameBut(s.world.gateways, r, gateway);
          assert k !in WokenBy(OfGateway(r), s.world.agents);
          ChangeKeepsSettled(OfGateway(r), s, s', k);
      }
    }
  }

  lemma AgentChangeKeepsInv(s: State, x: Key, spec: Option<AgentSpec>)
    requires Inv(s)
    ensures Inv(Apply(s, ChangeAgent(x, spec)))
  {
    var s' := Apply(s, ChangeAgent(x, spec));
    PutIsSameBut(s.world.agents, x, WithSpec(s.world.agents, x, spec));
    forall k | k in s'.world.agents && k !in s'.queue
      ensures Settled(s', k)
    {
      assert Lookup(s.world.agents, k) == Lookup(s'.world.agents, k);
      assert Settled(s, k);
      assert k !in WokenBy(OfAgent(x), s'.world.agents);
      ChangeKeepsSettled(OfAgent(x), s, s', k);
    }
  }

  /** What a status write does to the agents it neither writes nor wakes. */
  lemma WriteStatusKeepsSettled(s: State, x: Key, status: AgentStatus, s': State, k: Key)
    requires x in s.world.agents && k in s.world.agents && k != x
    requires s'.world == WriteStatus(s, x, status).world && s'.applied == s.applied
    requires Lookup(s'.flights, k) == Lookup(s.flights, k)
    requires k !in WriteStatus(s, x, status).queue && Settled(s, k)
    ensures k in s'.world.agents && Settled(s', k)
  {
    if status == s.world.agents[x].status {
      assert k in s.flights ==> s.flights[k] == s'.flights[k];
    } else {
      PutIsSameBut(s.world.agents, x, Some(s.world.agents[x].(status := status)));
      assert k !in WokenBy(OfAgent(x), s'.world.agents);
      ChangeKeepsSettled(OfAgent(x), s, s', k);
    }
  }

  lemma AskKeepsInv(s: State, x: Key, answer: Answer)
    requires Inv(s) && Enabled(s, AskNext(x, answer))
    ensures Inv(Apply(s, AskNext(x, answer)))
  {
    var s' := Apply(s, AskNext(x, answer));
    forall k | k in s'.world.agents && k !in s'.queue
      ensures Settled(s', k)
    {
      assert Settled(s, k);
    }
  }

  lemma FlightStepKeepsInv(s: State, step: Step)
    requires Inv(s) && Enabled(s, step)
    requires step.Start? || step.Deploy? || step.Enqueue? || step.ChangeDeployment?
    ensures Inv(Apply(s, step))
  {
    var s' := Apply(s, step);
    forall k | k in s'.world.agents && k !in s'.queue
      ensures Settled(s', k)
    {
      if k != step.k || !step.Start? {
        assert Settled(s, k);
      }
    }
  }

  /** Answers that are all true make the outcome one of what the world resolves to; one failed answer is enough to know. */
  lemma TrueAnswersDecide(world: World, k: Key, spec: AgentSpec, answers: seq<Answer>)
    requires TrueSoFar(world, k.namespace, spec, answers)
    ensures NotResolved in answers ==> MayResolve(world, k, spec, Failed) && forall r | MayResolve(world, k, spec, r) :: r == Failed
    ensures |answers| == |Plan(spec)| ==> MayResolve(world, k, spec, Outcome(spec, answers))
  {
    if NotResolved in answers {
      var i :| 0 <= i < |answers| && answers[i] == NotResolved;
      var all := AnswersGoOn(world, k.namespace, spec, answers);
      assert all[i] == NotResolved;
      assert MayResolve(world, k, spec, Outcome(spec, all));
      forall r | MayResolve(world, k, spec, r)
        ensures r == Failed
      {
        var others :| AreAnswers(world, k.namespace, spec, others) && r == Outcome(spec, others);
        FailureIsSure(world, k.namespace, Plan(spec)[i], others[i]);
      }
    }
    if |answers| == |Plan(spec)| {
      assert AreAnswers(world, k.namespace, spec, answers);
    }
  }

  lemma ReadyWriteIsUpToDate(s: State, x: Key)
    requires Enabled(s, WriteReady(x)) && GoodFlight(s, x)
    requires x !in Apply(s, WriteReady(x)).queue
    ensures UpToDate(Apply(s, WriteReady(x)), x)
  {
    var f := s.flights[x];
    TrueAnswersDecide(s.world, x, f.spec, f.answers);
    assert Apply(s, WriteReady(x)).world == s.world;
    assert Follows(Apply(s, WriteReady(x)), x, Outcome(f.spec, f.answers));
  }

  lemma NotReadyWriteIsUpToDate(s: State, x: Key)
    requires Enabled(s, WriteNotReady(x)) && GoodFlight(s, x)
    requires x !in Apply(s, WriteNotReady(x)).queue
    ensures UpToDate(Apply(s, WriteNotReady(x)), x)
  {
    TrueAnswersDecide(s.world, x, s.flights[x].spec, s.flights[x].answers);
    assert Apply(s, WriteNotReady(x)).world == s.world;
    assert Follows(Apply(s, WriteNotReady(x)), x, Failed);
  }

  lemma WriteReadyKeepsInv(s: State, x: Key)
    requires Inv(s) && Enabled(s, WriteReady(x))
    ensures Inv(Apply(s, WriteReady(x)))
  {
    var s', f := Apply(s, WriteReady(x)), s.flights[x];
    forall k | k in s'.world.agents && k !in s'.queue
      ensures Settled(s', k)
    {
      assert Settled(s, k);
      if k == x {
        ReadyWriteIsUpToDate(s, x);
      } else {
        WriteStatusKeepsSettled(s, x, ReadyStatus(x, f.spec, GatewayOf(Outcome(f.spec, f.answers))), s', k);
      }
    }
  }

  lemma WriteNotReadyKeepsInv(s: State, x: Key)
    requires Inv(s) && Enabled(s, WriteNotReady(x))
    ensures Inv(Apply(s, WriteNotReady(x)))
  {
    var s' := Apply(s, WriteNotReady(x));
    forall k | k in s'.world.agents && k !in s'.queue
      ensures Settled(s', k)
    {
      assert Settled(s, k);
      if k == x {
        NotReadyWriteIsUpToDate(s, x);
      } else {
        WriteStatusKeepsSettled(s, x, NotReadyStatus, s', k);
      }
    }
  }

  lemma FailureKeepsInv(s: State, x: Key, statusWritten: bool)
    requires Inv(s) && Enabled(s, Fails(x, statusWritten))
    ensures Inv(Apply(s, Fails(x, statusWritten)))
  {
    var s' := Apply(s, Fails(x, statusWritten));
    forall k | k in s'.world.agents && k !in s'.queue
      ensures Settled(s', k)
    {
      assert Settled(s, k);
      if statusWritten {
        WriteStatusKeepsSettled(s, x, NotReadyStatus, s', k);
      }
    }
  }

  lemma NextKeepsInv(s: State, s': State)
    requires Inv(s) && Next(s, s')
    ensures Inv(s')
  {
    var step :| Enabled(s, step) && s' == Apply(s, step);
    if step.ChangeAgent? {
      AgentChangeKeepsInv(s, step.k, step.spec);
    } else if step.ChangeRoute? || step.ChangeServer? || step.ChangeGateway? || step.ChangeConfig? {
      EnvironmentChangeKeepsInv(s, step);
    } else if step.WriteReady? {
      WriteReadyKeepsInv(s, step.k);
    } else if step.WriteNotReady? {
      WriteNotReadyKeepsInv(s, step.k);
    } else if step.Fails? {
      FailureKeepsInv(s, step.k, step.statusWritten);
    } else if step.AskNext? {
      AskKeepsInv(s, step.k, step.answer);
    } else {
      FlightStepKeepsInv(s, step);
    }
  }

  lemma StepAtKeepsInv(run: seq<State>, i: nat)
    requires IsRun(run) && 0 < i < |run| && Inv(run[i - 1])
    ensures Inv(run[i])
  {
    assert StepAt(run, i - 1);
    NextKeepsInv(run[i - 1], run[i]);
  }

  lemma {:induction false} RunKeepsInv(run: seq<State>, i: nat)
    requires IsRun(run) && i < |run|
    ensures Inv(run[i])
  {
    if i > 0 {
      RunKeepsInv(run, i - 1);
      StepAtKeepsInv(run, i);
    }
  }

  /**
    No lost wake-up.  In every run, whatever changes between the look-ups of
    however many reconciles, an agent that is neither queued nor in flight
    has the status and the deployment that its spec and its sub-agents,
    tools, gateway and configuration call for now.  Only which of several
    default gateways it has is left to chance.
   */
  lemma NoLostWakeUp(run: seq<State>, i: nat, k: Key)
    requires IsRun(run) && i < |run|
    requires k in run[i].world.agents && k !in run[i].queue && k !in run[i].flights
    ensures UpToDate(run[i], k)
  {
    RunKeepsInv(run, i);
    assert Settled(run[i], k);
  }

  // ---------------------------------------------------------------- stages

  /** When a look-up of a later stage has been made, every earlier stage had succeeded. */
  predicate InStages(spec: AgentSpec, answers: seq<Answer>) {
    forall stage <- [1, 1 + |spec.subAgents|, 1 + |spec.subAgents| + |spec.tools|] ::
      stage < |answers| ==> NotResolved !in answers[..stage]
  }

  lemma OneMoreAnswer(spec: AgentSpec, answers: seq<Answer>, answer: Answer)
    requires InStages(spec, answers) && !(StageEnd(spec, |answers|) && NotResolved in answers)
    ensures InStages(spec, answers + [answer])
  {
    forall stage | stage in [1, 1 + |spec.subAgents|, 1 + |spec.subAgents| + |spec.tools|] && stage < |answers| + 1
      ensures NotResolved !in (answers + [answer])[..stage]
    {
      assert (answers + [answer])[..stage] == answers[..stage];
      if stage == |answers| {
        assert answers[..stage] == answers;
      }
    }
  }

  lemma StepKeepsStages(s: State, s': State, k: Key)
    requires Next(s, s') && k in s'.flights && (k in s.flights ==> InStages(s.flights[k].spec, s.flights[k].answers))
    ensures InStages(s'.flights[k].spec, s'.flights[k].answers)
  {
    var step :| Enabled(s, step) && s' == Apply(s, step);
    if step.AskNext? && step.k == k {
      OneMoreAnswer(s.flights[k].spec, s.flights[k].answers, step.answer);
    }
  }

  /** In every run, a reconcile makes no look-up once a stage of its look-ups has failed. */
  lemma {:induction false} NoLookUpAfterAFailedStage(run: seq<State>, i: nat, k: Key)
    requires IsRun(run) && i < |run| && k in run[i].flights
    ensures InStages(run[i].flights[k].spec, run[i].flights[k].answers)
  {
    if i > 0 {
      assert StepAt(run, i - 1);
      if k in run[i - 1].flights {
        NoLookUpAfterAFailedStage(run, i - 1, k);
      }
      StepKeepsStages(run[i - 1], run[i], k);
    }
  }
}
