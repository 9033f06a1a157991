/**
  Readiness over runs of the protocol, with overlapping reconciles: URLs are
  never taken back while nothing else changes, and what a quiet cluster has
  published.
 */
module ReadinessProgress {
  import opened Api
  import opened AgentUrls
  import opened Resolution
  import opened Readiness
  import opened ReadinessRecovery
  import opened AgentProtocol
  import opened ReadinessConvergence
  import opened ReadinessSafety

  /** A step of a reconcile, none of whose calls fails; resyncs are allowed at any time. */
  predicate Undisturbed(step: Step) {
    step.Enqueue? || step.Start? || step.AskNext? || step.Deploy? || step.WriteReady? || step.WriteNotReady?
  }

  ghost predicate UndisturbedAt(run: seq<State>, i: nat)
    requires i < |run| - 1
  {
    exists step :: Undisturbed(step) && Enabled(run[i], step) && run[i + 1] == Apply(run[i], step)
  }

  /** A run in which specs, tools, gateways and configurations stay as they are and nothing fails. */
  ghost predicate IsUndisturbedRun(run: seq<State>) {
    && run != []
    && Init(run[0])
    && forall i {:trigger UndisturbedAt(run, i)} :: 0 <= i < |run| - 1 ==> UndisturbedAt(run, i)
  }

  // ---------------------------------------------------------------- what growing URLs keep

  /** The same world, but for URLs that were published in between. */
  ghost predicate Grows(world: World, world': World) {
    && world' == world.(agents := world'.agents)
    && world'.agents.Keys == world.agents.Keys
    && forall k <- world.agents ::
         && world'.agents[k].spec == world.agents[k].spec
         && (world.agents[k].status.url != "" ==> world'.agents[k].status.url == world.agents[k].status.url)
  }

  /** An answer that found something is still true. */
  lemma AnswerStays(world: World, world': World, namespace: string, q: Query, a: Answer)
    requires Grows(world, world') && MayAnswer(world, namespace, q, a) && a != NotResolved
    ensures MayAnswer(world', namespace, q, a)
  {
  }

  lemma CanResolveStays(world: World, world': World, k: Key, spec: AgentSpec)
    requires Grows(world, world') && CanResolve(world, k, spec)
    ensures CanResolve(world', k, spec)
  {
    forall q | q in Plan(spec)
      ensures !FindsNothing(world', k.namespace, q)
    {
      var a := SomeAnswer(world, k.namespace, q);
      FailureIsSure(world, k.namespace, q, a);
      AnswerStays(world, world', k.namespace, q, a);
      FailureIsSure(world', k.namespace, q, a);
    }
  }

  // ---------------------------------------------------------------- the invariant

  /** A published URL is the agent's own, and the agent would be ready again. */
  ghost predicate GoodUrl(world: World, k: Key)
    requires k in world.agents
  {
    var agent := world.agents[k];
    agent.status.url != "" ==> agent.status.url == CardUrl(k, agent.spec) && CanResolve(world, k, agent.spec)
  }

  /** Every answer is still true, unless it found nothing; and an agent with a URL has no such answer. */
  ghost predicate GrowingAnswers(world: World, k: Key, f: Flight) {
    && |f.answers| <= |Plan(f.spec)|
    && (forall i :: 0 <= i < |f.answers| ==> f.answers[i] == NotResolved || MayAnswer(world, k.namespace, Plan(f.spec)[i], f.answers[i]))
    && (k in world.agents && world.agents[k].status.url != "" ==> NotResolved !in f.answers)
  }

  ghost predicate GrowingFlight(world: World, k: Key, f: Flight) {
    && k in world.agents && f.spec == world.agents[k].spec
    && GrowingAnswers(world, k, f)
    && (f.deployed ==> Complete(f) && Outcome(f.spec, f.answers).Resolved?)
  }

  ghost predicate Growing(s: State) {
    && (forall k <- s.world.agents :: GoodUrl(s.world, k))
    && (forall k <- s.flights :: GrowingFlight(s.world, k, s.flights[k]))
  }

  /** What a growing world keeps of the agents that are not written. */
  lemma GrowthKeepsOthers(s: State, s': State, k: Key)
    requires Growing(s) && Grows(s.world, s'.world)
    requires forall j <- s'.flights :: j in s.flights && s'.flights[j] == s.flights[j] && j != k
    requires forall j <- s.world.agents :: j != k ==> s'.world.agents[j] == s.world.agents[j]
    requires k in s.world.agents && GoodUrl(s'.world, k)
    ensures Growing(s')
  {
    forall j | j in s'.world.agents
      ensures GoodUrl(s'.world, j)
    {
      assert GoodUrl(s.world, j);
      if j != k && s.world.agents[j].status.url != "" {
        CanResolveStays(s.world, s'.world, j, s.world.agents[j].spec);
      }
    }
    forall j | j in s'.flights
      ensures GrowingFlight(s'.world, j, s'.flights[j])
    {
      var f := s.flights[j];
      assert GrowingFlight(s.world, j, f);
      forall i | 0 <= i < |f.answers| && f.answers[i] != NotResolved
        ensures MayAnswer(s'.world, j.namespace, Plan(f.spec)[i], f.answers[i])
      {
        AnswerStays(s.world, s'.world, j.namespace, Plan(f.spec)[i], f.answers[i]);
      }
    }
  }

  /** A reconcile none of whose answers failed found what the world still is. */
  lemma FlightResolves(world: World, k: Key, f: Flight)
    requires GrowingFlight(world, k, f) && Complete(f) && NotResolved !in f.answers
    ensures Outcome(f.spec, f.answers).Resolved? <==> CanResolve(world, k, f.spec)
  {
    assert AreAnswers(world, k.namespace, f.spec, f.answers);
    ResolvesIff(world, k, f.spec, Outcome(f.spec, f.answers));
  }

  /** A status write that keeps a published URL, and publishes one only for an agent that can resolve. */
  lemma StatusWriteGrows(s: State, k: Key, status: AgentStatus, s': State)
    requires Growing(s) && k in s.world.agents && s' == WriteStatus(s, k, status).(flights := s.flights - {k})
    requires s.world.agents[k].status.url != "" ==> status.url == s.world.agents[k].status.url
    requires status.url != "" ==> status.url == CardUrl(k, s.world.agents[k].spec) && CanResolve(s.world, k, s.world.agents[k].spec)
    ensures Grows(s.world, s'.world) && Growing(s')
  {
    var agents' := s.world.agents[k := s.world.agents[k].(status := status)];
    assert s'.world == s.world.(agents := agents');
    WrittenWorldGrows(s.world, k, status, s'.world);
    GrowthKeepsOthers(s, s', k);
  }

  lemma WrittenWorldGrows(world: World, k: Key, status: AgentStatus, world': World)
    requires k in world.agents && world' == world.(agents := world.agents[k := world.agents[k].(status := status)])
    requires world.agents[k].status.url != "" ==> status.url == world.agents[k].status.url
    requires status.url != "" ==> status.url == CardUrl(k, world.agents[k].spec) && CanResolve(world, k, world.agents[k].spec)
    ensures Grows(world, world') && GoodUrl(world', k)
  {
    if status.url != "" {
      CanResolveStays(world, world', k, world.agents[k].spec);
    }
  }

  lemma WriteReadyGrows(s: State, k: Key)
    requires Growing(s) && Enabled(s, WriteReady(k))
    ensures Grows(s.world, Apply(s, WriteReady(k)).world) && Growing(Apply(s, WriteReady(k)))
  {
    var f := s.flights[k];
    assert GrowingFlight(s.world, k, f) && GoodUrl(s.world, k);
    FlightResolves(s.world, k, f);
    StatusWriteGrows(s, k, ReadyStatus(k, f.spec, GatewayOf(Outcome(f.spec, f.answers))), Apply(s, WriteReady(k)));
  }

  lemma WriteNotReadyGrows(s: State, k: Key)
    requires Growing(s) && Enabled(s, WriteNotReady(k))
    ensures Grows(s.world, Apply(s, WriteNotReady(k)).world) && Growing(Apply(s, WriteNotReady(k)))
  {
    var f := s.flights[k];
    assert GrowingFlight(s.world, k, f) && GoodUrl(s.world, k);
    if s.world.agents[k].status.url != "" {
      FlightResolves(s.world, k, f);
    }
    StatusWriteGrows(s, k, NotReadyStatus, Apply(s, WriteNotReady(k)));
  }

  lemma AskGrows(s: State, k: Key, answer: Answer)
    requires Growing(s) && Enabled(s, AskNext(k, answer))
    ensures Growing(Apply(s, AskNext(k, answer)))
  {
    var s', f := Apply(s, AskNext(k, answer)), s.flights[k];
    assert GrowingFlight(s.world, k, f) && GoodUrl(s.world, k);
    FailureIsSure(s.world, k.namespace, Plan(f.spec)[|f.answers|], answer);
    assert GrowingFlight(s.world, k, s'.flights[k]);
    forall j | j in s'.flights && j != k
      ensures GrowingFlight(s'.world, j, s'.flights[j])
    {
      assert GrowingFlight(s.world, j, s.flights[j]);
    }
  }

  lemma OtherStepGrows(s: State, step: Step)
    requires Growing(s) && Enabled(s, step) && (step.Enqueue? || step.Start? || step.Deploy?)
    ensures Growing(Apply(s, step))
  {
    var s' := Apply(s, step);
    forall j | j in s'.flights
      ensures GrowingFlight(s'.world, j, s'.flights[j])
    {
      if j in s.flights {
        assert GrowingFlight(s.world, j, s.flights[j]);
      }
    }
  }

  lemma StepGrows(s: State, step: Step)
    requires Growing(s) && Undisturbed(step) && Enabled(s, step)
    ensures Grows(s.world, Apply(s, step).world) && Growing(Apply(s, step))
  {
    match step {
      case AskNext(k, answer) => AskGrows(s, k, answer);
      case WriteReady(k) => WriteReadyGrows(s, k);
      case WriteNotReady(k) => WriteNotReadyGrows(s, k);
      case Enqueue(_) => OtherStepGrows(s, step);
      case Start(_) => OtherStepGrows(s, step);
      case Deploy(_) => OtherStepGrows(s, step);
    }
  }

  lemma UndisturbedStepGrows(run: seq<State>, i: nat)
    requires IsUndisturbedRun(run) && 0 < i < |run| && Growing(run[i - 1])
    ensures Grows(run[i - 1].world, run[i].world) && Growing(run[i])
  {
    assert UndisturbedAt(run, i - 1);
    var step :| Undisturbed(step) && Enabled(run[i - 1], step) && run[i] == Apply(run[i - 1], step);
    StepGrows(run[i - 1], step);
  }

  lemma StartIsGrowing(s: State)
    requires Init(s) && UrlFree(s.world.agents)
    ensures Growing(s)
  {
  }

  /** In every run the invariant holds, and every step only publishes. */
  lemma {:induction false} RunKeepsGrowing(run: seq<State>, i: nat)
    requires IsUndisturbedRun(run) && UrlFree(run[0].world.agents) && i < |run|
    ensures Growing(run[i])
    ensures i > 0 ==> Grows(run[i - 1].world, run[i].world)
  {
    if i == 0 {
      StartIsGrowing(run[0]);
    } else {
      RunKeepsGrowing(run, i - 1);
      UndisturbedStepGrows(run, i);
    }
  }

  lemma GrowsOn(a: World, b: World, c: World)
    requires Grows(a, b) && Grows(b, c)
    ensures Grows(a, c)
  {
  }

  lemma {:induction false} RunGrows(run: seq<State>, i: nat, j: nat)
    requires IsUndisturbedRun(run) && UrlFree(run[0].world.agents) && i <= j < |run|
    ensures Grows(run[i].world, run[j].world)
    decreases j
  {
    if i < j {
      RunGrows(run, i, j - 1);
      RunKeepsGrowing(run, j);
      GrowsOn(run[i].world, run[j - 1].world, run[j].world);
    }
  }

  /**
    No URL is ever taken back.  In every run from a URL-free cluster, however
    the look-ups of overlapping reconciles interleave, while nothing else
    changes and nothing fails: a URL that was published stays as it is.
   */
  lemma PublishedUrlsStay(run: seq<State>, i: nat, j: nat, k: Key)
    requires IsUndisturbedRun(run) && UrlFree(run[0].world.agents) && i <= j < |run|
    requires k in run[i].world.agents && run[i].world.agents[k].status.url != ""
    ensures k in run[j].world.agents
    ensures run[j].world.agents[k].status.url == run[i].world.agents[k].status.url == CardUrl(k, run[i].world.agents[k].spec)
  {
    RunKeepsGrowing(run, i);
    RunGrows(run, i, j);
    assert GoodUrl(run[i].world, k);
  }

  /** So each agent's URL changes at most once: it is empty up to some point, and the card URL from there on. */
  lemma UrlChangesAtMostOnce(run: seq<State>, k: Key) returns (n: nat)
    requires IsUndisturbedRun(run) && UrlFree(run[0].world.agents) && k in run[0].world.agents
    ensures n <= |run|
    ensures forall i :: 0 <= i < |run| ==> k in run[i].world.agents
    ensures forall i :: 0 <= i < n ==> run[i].world.agents[k].status.url == ""
    ensures forall i :: n <= i < |run| ==> run[i].world.agents[k].status.url == CardUrl(k, run[0].world.agents[k].spec) != ""
  {
    forall i | 0 <= i < |run|
      ensures k in run[i].world.agents && run[i].world.agents[k].spec == run[0].world.agents[k].spec
    {
      RunGrows(run, 0, i);
    }
    n := 0;
    while n < |run| && run[n].world.agents[k].status.url == ""
      invariant n <= |run|
      invariant forall i :: 0 <= i < n ==> run[i].world.agents[k].status.url == ""
    {
      n := n + 1;
    }
    forall i | n <= i < |run|
      ensures run[i].world.agents[k].status.url == CardUrl(k, run[0].world.agents[k].spec) != ""
    {
      PublishedUrlsStay(run, n, i, k);
    }
  }

  // ---------------------------------------------------------------- quiet clusters

  /**
    Safety from any statuses: while specs stay as they are, only agents that
    the agents up at the start can bring up ever have a URL.
   */
  lemma OnlyClosurePublishes(run: seq<State>, specs: Specs, i: nat, k: Key)
    requires IsFixedRun(run, specs) && i < |run| && k in Ups(run[i].world)
    ensures k in Closure(specs, A2AAgents(specs), Ups(run[0].world))
  {
    var able, start := A2AAgents(specs), Ups(run[0].world);
    ClosureIsClosed(specs, able, start);
    assert OnlyThese(run[0].world.agents, Closure(specs, able, start)) by {
      assert forall j <- run[0].world.agents :: run[0].world.agents[j].status.url != "" ==> j in start;
    }
    RunIsSafe(run, specs, able, Closure(specs, able, start), i);
  }

  /**
    Convergence in every run.  While specs stay as they are, whatever else
    changes and fails on the way: when nothing is queued or in flight any
    more, exactly the least fixpoint of the agents that are able by then has
    a URL.  The statuses at the start do not matter as long as no agent that
    had a URL then lies on a cycle of references.
   */
  lemma QuietFixedRunIsLeast(run: seq<State>, specs: Specs, i: nat)
    requires IsFixedRun(run, specs) && i < |run|
    requires forall k <- Ups(run[0].world) :: !OnCycle(specs, k)
    requires run[i].queue == {} && run[i].flights == map[]
    ensures Ups(run[i].world) == Least(specs, Able(run[i].world))
  {
    QuietRunIsLeast(run, i);
    if HasCycle(specs, Ups(run[i].world)) {
      var q := LoopOf(specs, Ups(run[i].world));
      OnlyClosurePublishes(run, specs, i, q[0]);
      forall m | 0 <= m < |q|
        ensures q[m] !in Ups(run[0].world)
      {
        EveryAgentOfALoop(specs, q, m);
      }
      LoopStaysDown(specs, A2AAgents(specs), Ups(run[0].world), q);
    }
  }
}
