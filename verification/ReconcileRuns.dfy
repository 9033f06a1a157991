/**
  Whole reconciles as runs of the protocol: what the simple machine of
  `ReadinessConvergence` does in one step, the protocol can do in many.  And
  a run that shows agents keeping each other up in a cycle.
 */
module ReconcileRuns {
  import opened Api
  import opened AgentUrls
  import opened Resolution
  import opened Readiness
  import opened ReadinessRecovery
  import opened AgentProtocol
  import opened ReadinessConvergence
  import opened ReadinessSafety

  ghost function Last(run: seq<State>): State
    requires run != []
  {
    run[|run| - 1]
  }

  lemma Extend(run: seq<State>, step: Step) returns (run': seq<State>)
    requires IsRun(run) && Enabled(Last(run), step)
    ensures IsRun(run') && run' == run + [Apply(Last(run), step)]
  {
    run' := run + [Apply(Last(run), step)];
    forall i | 0 <= i < |run'| - 1
      ensures StepAt(run', i)
    {
      if i < |run| - 1 {
        assert StepAt(run, i);
      } else {
        assert Next(Last(run), Apply(Last(run), step));
      }
    }
  }

  /** The look-ups go on until the reconcile gives up or has all answers. */
  lemma {:induction false} AskOn(run: seq<State>, k: Key, answers: seq<Answer>, n: nat) returns (run': seq<State>, m: nat)
    requires IsRun(run) && k in Last(run).flights
    requires AreAnswers(Last(run).world, k.namespace, Last(run).flights[k].spec, answers)
    requires n <= |answers| && Last(run).flights[k] == Flight(Last(run).flights[k].spec, answers[..n], false)
    ensures IsRun(run') && run <= run'
    ensures m <= |answers|
    ensures
      var f := Flight(Last(run).flights[k].spec, answers[..m], false);
      && Last(run') == Last(run).(flights := Last(run).flights[k := f])
      && (GivesUp(f) || m == |answers|)
    decreases |answers| - n
  {
    var s := Last(run);
    var f := s.flights[k];
    if GivesUp(f) || n == |answers| {
      run', m := run, n;
      assert s.flights[k := f] == s.flights;
    } else {
      var next := Extend(run, AskNext(k, answers[n]));
      assert answers[..n] + [answers[n]] == answers[..n + 1];
      run', m := AskOn(next, k, answers, n + 1);
      assert run <= next;
    }
  }

  /** How a reconcile ends: with the deployment and the status, or with the status alone. */
  lemma Finish(run: seq<State>, k: Key) returns (run': seq<State>)
    requires IsRun(run) && k in Last(run).flights && NoConflict(Last(run), k)
    requires GivesUp(Last(run).flights[k]) || Complete(Last(run).flights[k])
    ensures IsRun(run') && run <= run'
    ensures
      var s, f := Last(run), Last(run).flights[k];
      var r := if Complete(f) then Outcome(f.spec, f.answers) else Failed;
      var written := WriteStatus(s, k, StatusOf(k, f.spec, r));
      && Last(run').world == written.world && Last(run').queue == written.queue
      && Last(run').flights == s.flights - {k}
  {
    var s, f := Last(run), Last(run).flights[k];
    if Complete(f) && Outcome(f.spec, f.answers).Resolved? {
      var deployed := Extend(run, Deploy(k));
      assert run <= deployed;
      run' := Extend(deployed, WriteReady(k));
      assert Last(deployed).flights - {k} == s.flights - {k};
    } else {
      run' := Extend(run, WriteNotReady(k));
    }
  }

  lemma Begin(run: seq<State>, k: Key) returns (run': seq<State>)
    requires IsRun(run) && k in Last(run).world.agents && k !in Last(run).flights
    ensures IsRun(run') && run <= run'
    ensures
      var s := Last(run);
      Last(run') == s.(queue := s.queue - {k}, flights := s.flights[k := Flight(s.world.agents[k].spec, [], false)])
  {
    var queued := Extend(run, Enqueue(k));
    run' := Extend(queued, Start(k));
    assert run <= queued <= run';
    assert Last(run).queue + {k} - {k} == Last(run).queue - {k};
  }

  /** A reconcile that gives up early ends as one with all answers would. */
  lemma AnswersSoFarDecide(spec: AgentSpec, answers: seq<Answer>, m: nat)
    requires |answers| == |Plan(spec)| && m <= |answers|
    requires GivesUp(Flight(spec, answers[..m], false)) || m == |answers|
    ensures Outcome(spec, answers) == if m == |Plan(spec)| then Outcome(spec, answers[..m]) else Failed
  {
    if m == |answers| {
      assert answers[..m] == answers;
    } else {
      var i :| 0 <= i < m && answers[..m][i] == NotResolved;
      assert answers[i] == NotResolved;
    }
  }

  /** A reconcile that has just begun, to its end. */
  lemma RunToEnd(run: seq<State>, k: Key, answers: seq<Answer>) returns (run': seq<State>)
    requires IsRun(run) && k in Last(run).flights && NoConflict(Last(run), k)
    requires Last(run).flights[k] == Flight(Last(run).flights[k].spec, [], false)
    requires AreAnswers(Last(run).world, k.namespace, Last(run).flights[k].spec, answers)
    ensures IsRun(run') && run <= run'
    ensures
      var s, spec := Last(run), Last(run).flights[k].spec;
      var written := WriteStatus(s, k, StatusOf(k, spec, Outcome(spec, answers)));
      && Last(run').world == written.world && Last(run').queue == written.queue
      && Last(run').flights == s.flights - {k}
  {
    var s, spec := Last(run), Last(run).flights[k].spec;
    assert answers[..0] == [];
    var asked, m := AskOn(run, k, answers, 0);
    AnswersSoFarDecide(spec, answers, m);
    WriteIgnoresFlights(s, Last(asked), k, StatusOf(k, spec, Outcome(spec, answers)));
    run' := Finish(asked, k);
  }

  lemma WriteIgnoresFlights(s: State, t: State, k: Key, status: AgentStatus)
    requires k in s.world.agents && t == s.(flights := t.flights)
    ensures WriteStatus(t, k, status) == WriteStatus(s, k, status).(flights := t.flights)
  {
  }

  /** A whole reconcile, begun when the agent is not in flight. */
  lemma ReconcileAsRun(run: seq<State>, k: Key, r: Resolution) returns (run': seq<State>)
    requires IsRun(run) && k in Last(run).world.agents && k !in Last(run).flights
    requires MayResolve(Last(run).world, k, Last(run).world.agents[k].spec, r)
    ensures IsRun(run') && run <= run'
    ensures
      var s := Last(run);
      var written := WriteStatus(s.(queue := s.queue - {k}), k, StatusOf(k, s.world.agents[k].spec, r));
      && Last(run').world == written.world && Last(run').queue == written.queue
      && Last(run').flights == s.flights
  {
    var s := Last(run);
    var spec := s.world.agents[k].spec;
    var answers :| AreAnswers(s.world, k.namespace, spec, answers) && r == Outcome(spec, answers);
    var started := Begin(run, k);
    run' := RunToEnd(started, k, answers);
    WriteIgnoresFlights(s.(queue := s.queue - {k}), Last(started), k, StatusOf(k, spec, r));
    assert Last(started).flights - {k} == s.flights;
  }

  /** Every history of whole reconciles is what some run of the protocol does to the world. */
  lemma {:induction false} HistoryAsRun(run: seq<State>, worlds: seq<World>, ks: seq<Key>) returns (run': seq<State>)
    requires IsRun(run) && IsHistory(worlds, ks)
    requires Last(run).world == worlds[0] && Last(run).flights == map[]
    ensures IsRun(run') && run <= run'
    ensures Last(run').world == worlds[|ks|] && Last(run').flights == map[]
    decreases |ks|
  {
    if ks == [] {
      run' := run;
    } else {
      var n := |ks| - 1;
      HistoryBegins(worlds, ks, n);
      var before := HistoryAsRun(run, worlds[..n + 1], ks[..n]);
      assert ReconcileAt(worlds, ks, n);
      run' := before;
      var agents := worlds[n].agents;
      if ks[n] in agents {
        var r :| MayResolve(worlds[n], ks[n], agents[ks[n]].spec, r)
                 && worlds[n + 1] == worlds[n].(agents := agents[ks[n] := agents[ks[n]].(status := StatusOf(ks[n], agents[ks[n]].spec, r))]);
        run' := ReconcileAsRun(before, ks[n], r);
        assert agents[ks[n] := agents[ks[n]]] == agents;
      }
    }
  }

  /** What can remain up is reached: from every world some run comes to rest there, be it the least fixpoint or not. */
  lemma SomeRunKeepsWhatCanRemain(world: World) returns (run: seq<State>)
    ensures IsRun(run) && run[0].world == world && Last(run).flights == map[]
    ensures SpecsOf(Last(run).world.agents) == SpecsOf(world.agents) && AtRest(Last(run).world)
    ensures Ups(Last(run).world) == CanRemain(world)
  {
    var ks := RemainsIsReached(SpecsOf(world.agents), Able(world), Ups(world));
    var worlds := SomeHistory(world, ks);
    HistoryIsSettleAll(worlds, ks);
    AtRestIsStable(worlds[|ks|]);
    run := HistoryAsRun([State(world, map[], world.agents.Keys, map[])], worlds, ks);
  }

  // ---------------------------------------------------------------- a cycle that stays up

  const A: Key := Key("default", "a")
  const B: Key := Key("default", "b")

  function RefTo(k: Key): SubAgent {
    SubAgent(k.name, Some(ObjectReference(k.namespace, k.name)), "", "tool_call")
  }

  /** An agent that speaks A2A and needs nothing but these sub-agents. */
  function PlainSpec(subs: seq<SubAgent>): AgentSpec {
    AgentSpec("google-adk", None, "", "", "", "", subs, [], [Protocol("a2a", "A2A", 8000, "")], None, [], [], [], [], None, None, None)
  }

  const NewStatus: AgentStatus := AgentStatus("", None, None)

  /** Two agents and nothing else. */
  function TwoAgents(a: Agent, b: Agent): World {
    World("operator", map[A := a, B := b], map[], map[], map[], map[])
  }

  /** It resolves when the one agent it references, if any, has a URL. */
  lemma PlainAgentResolves(world: World, k: Key, subs: seq<SubAgent>) returns (r: Resolution)
    requires world.agents.Keys == {A, B} && world == TwoAgents(world.agents[A], world.agents[B]) && k in {A, B}
    requires subs == [] || exists j :: j in Ups(world) && j.namespace == "default" && subs == [RefTo(j)]
    ensures MayResolve(world, k, PlainSpec(subs), r)
    ensures StatusOf(k, PlainSpec(subs), r) == ReadyStatus(k, PlainSpec(subs), None)
  {
    var spec := PlainSpec(subs);
    assert InNamespace(world.configs, "operator") == map[] && InNamespace(world.gateways, DEFAULT_AI_GATEWAY_NAMESPACE) == map[];
    var answers := AnswersGoOn(world, k.namespace, spec, []);
    r := Outcome(spec, answers);
    assert Plan(spec)[|Plan(spec)| - 1] == AskGateway(None);
    assert MayAnswer(world, k.namespace, AskGateway(None), answers[|Plan(spec)| - 1]);
    forall q | q in Plan(spec)
      ensures !FindsNothing(world, k.namespace, q)
    {
      PlanHas(spec, q);
    }
    PlainTypesAreSet(subs);
    assert CanResolve(world, k, spec);
    assert MayResolve(world, k, spec, r);
    ResolvesIff(world, k, spec, r);
  }

  lemma PlainTypesAreSet(subs: seq<SubAgent>)
    requires subs == [] || exists j :: subs == [RefTo(j)]
    ensures TypesSet(PlainSpec(subs))
  {
    if subs != [] {
      assert subs[..0] == [];
    }
  }

  lemma PlainUrl(k: Key, subs: seq<SubAgent>)
    ensures ReadyStatus(k, PlainSpec(subs), None) == ReadyStatus(k, PlainSpec([]), None)
    ensures ReadyStatus(k, PlainSpec(subs), None).url != ""
  {
    CardUrlIffA2A(k, PlainSpec(subs));
    assert PlainSpec(subs).protocols[0].kind == A2A;
  }

  /** A reconcile of one of the two, when it resolves. */
  lemma PlainReconcile(run: seq<State>, k: Key, subs: seq<SubAgent>) returns (run': seq<State>)
    requires IsRun(run) && k in {A, B} && Last(run).flights == map[] && Last(run).queue <= {A, B}
    requires
      var world := Last(run).world;
      && world.agents.Keys == {A, B} && world == TwoAgents(world.agents[A], world.agents[B]) && world.agents[k].spec == PlainSpec(subs)
      && (subs == [] || exists j :: j in Ups(world) && j.namespace == "default" && subs == [RefTo(j)])
    ensures IsRun(run') && run <= run' && Last(run').flights == map[] && Last(run').queue <= {A, B}
    ensures
      var world := Last(run).world;
      var ready := Agent(PlainSpec(subs), ReadyStatus(k, PlainSpec([]), None));
      && Last(run').world == world.(agents := world.agents[k := ready])
      && (world.agents[k] == ready ==> Last(run').queue == Last(run).queue - {k})
  {
    var world := Last(run).world;
    var r := PlainAgentResolves(world, k, subs);
    PlainUrl(k, subs);
    run' := ReconcileAsRun(run, k, r);
    var ready := Agent(PlainSpec(subs), ReadyStatus(k, PlainSpec([]), None));
    assert world.agents[k].(status := ready.status) == ready;
    if world.agents[k] == ready {
      assert world.agents[k := ready] == world.agents;
    }
  }

  const UpA: AgentStatus := ReadyStatus(A, PlainSpec([]), None)
  const UpB: AgentStatus := ReadyStatus(B, PlainSpec([]), None)

  lemma TwoAgentsUpdated(a: Agent, b: Agent, a': Agent, b': Agent)
    ensures TwoAgents(a, b).(agents := TwoAgents(a, b).agents[A := a']) == TwoAgents(a', b)
    ensures TwoAgents(a, b).(agents := TwoAgents(a, b).agents[B := b']) == TwoAgents(a, b')
  {
  }

  /** From no URL at all, a comes up, and then b, which references it. */
  lemma BothComeUp() returns (run: seq<State>)
    ensures IsRun(run) && UrlFree(run[0].world.agents)
    ensures Last(run).flights == map[] && Last(run).queue <= {A, B}
    ensures Last(run).world == TwoAgents(Agent(PlainSpec([]), UpA), Agent(PlainSpec([RefTo(A)]), UpB))
  {
    var a, b := Agent(PlainSpec([]), NewStatus), Agent(PlainSpec([RefTo(A)]), NewStatus);
    PlainUrl(A, []);
    var start := [State(TwoAgents(a, b), map[], {A, B}, map[])];
    var one := PlainReconcile(start, A, []);
    TwoAgentsUpdated(a, b, a.(status := UpA), b);
    assert Last(one).world == TwoAgents(a.(status := UpA), b);
    run := PlainReconcile(one, B, [RefTo(A)]);
    TwoAgentsUpdated(a.(status := UpA), b, a, b.(status := UpB));
  }

  /** Two agents that reference each other and are up stay up, and nothing is left to do. */
  lemma BothStayUp(run: seq<State>) returns (run': seq<State>)
    requires IsRun(run) && Last(run).flights == map[] && Last(run).queue <= {A, B}
    requires Last(run).world == TwoAgents(Agent(PlainSpec([RefTo(B)]), UpA), Agent(PlainSpec([RefTo(A)]), UpB))
    ensures IsRun(run') && run <= run' && Last(run').flights == map[] && Last(run').queue == {}
    ensures Last(run').world == Last(run).world
  {
    PlainUrl(A, []);
    PlainUrl(B, []);
    var a, b := Agent(PlainSpec([RefTo(B)]), UpA), Agent(PlainSpec([RefTo(A)]), UpB);
    TwoAgentsUpdated(a, b, a, b);
    var one := PlainReconcile(run, A, [RefTo(B)]);
    run' := PlainReconcile(one, B, [RefTo(A)]);
  }

  /**
    A cycle can keep itself up.  The run begins without any URL; b references
    a and both come up; then a is edited to reference b.  When nothing is
    queued or in flight any more both still have their URLs, though the least
    fixpoint is empty: in a new cluster with the same specs neither would
    ever come up.
   */
  lemma ACycleCanKeepItselfUp() returns (run: seq<State>, n: nat)
    ensures IsRun(run) && n < |run| - 1 && UrlFree(run[0].world.agents)
    ensures run[n + 1] == Apply(run[n], ChangeAgent(A, Some(PlainSpec([RefTo(B)]))))
    ensures Last(run).queue == {} && Last(run).flights == map[]
    ensures Ups(Last(run).world) == {A, B}
    ensures SpecsOf(Last(run).world.agents) == map[A := PlainSpec([RefTo(B)]), B := PlainSpec([RefTo(A)])]
    ensures Least(SpecsOf(Last(run).world.agents), Able(Last(run).world)) == {}
  {
    var up := BothComeUp();
    n := |up| - 1;
    var edited := Extend(up, ChangeAgent(A, Some(PlainSpec([RefTo(B)]))));
    EditedWorld(Last(up));
    run := BothStayUp(edited);
    assert run[n] == edited[n] && run[n + 1] == edited[n + 1];
    UpInACycle(Last(run).world);
  }

  lemma EditedWorld(s: State)
    requires s.world == TwoAgents(Agent(PlainSpec([]), UpA), Agent(PlainSpec([RefTo(A)]), UpB))
    requires s.queue <= {A, B} && s.flights == map[]
    ensures
      var s' := Apply(s, ChangeAgent(A, Some(PlainSpec([RefTo(B)]))));
      && s'.world == TwoAgents(Agent(PlainSpec([RefTo(B)]), UpA), Agent(PlainSpec([RefTo(A)]), UpB))
      && s'.queue <= {A, B} && s'.flights == map[]
  {
    TwoAgentsUpdated(Agent(PlainSpec([]), UpA), Agent(PlainSpec([RefTo(A)]), UpB),
                     Agent(PlainSpec([RefTo(B)]), UpA), Agent(PlainSpec([RefTo(A)]), UpB));
  }

  lemma UpInACycle(world: World)
    requires world == TwoAgents(Agent(PlainSpec([RefTo(B)]), UpA), Agent(PlainSpec([RefTo(A)]), UpB))
    ensures Ups(world) == {A, B}
    ensures SpecsOf(world.agents) == map[A := PlainSpec([RefTo(B)]), B := PlainSpec([RefTo(A)])]
    ensures Least(SpecsOf(world.agents), Able(world)) == {}
  {
    PlainUrl(A, []);
    PlainUrl(B, []);
    TwoAgentCycle(world, SpecsOf(world.agents));
  }

  lemma TwoAgentCycle(world: World, specs: Specs)
    requires specs == map[A := PlainSpec([RefTo(B)]), B := PlainSpec([RefTo(A)])]
    ensures Least(specs, Able(world)) == {}
  {
    var p := [A, B, A];
    assert RefTo(B) in specs[A].subAgents && RefTo(A) in specs[B].subAgents;
    assert p[0] == p[|p| - 1];
    CyclesNeverComeUp(specs, Able(world), p);
    assert p[0] == A && p[1] == B;
  }
}
