/**
  The workforce controller as a protocol.

  The state is the cluster as the informer caches show it, the work queue (a
  set) and the reconciles in flight.  A reconcile reads one agent at a time,
  and agents and workforces may change between any two of its reads.  The
  theorem is that no change is lost: a workforce that is neither queued nor
  in flight has a status that is exact for the cluster as it is now.
 */
module WorkforceProtocol {
  import opened Api
  import opened Collections
  import opened Keys
  import opened Admission
  import opened Discovery
  import opened DiscoveryTheorems
  import opened Workforces

  /**
    A reconcile in progress: it holds the entry points it fetched.  First it
    looks up the entry points, then it traverses.  `answers` is the history of
    what the traversal was answered.
   */
  datatype Flight =
    | Validating(entryPoints: seq<Option<ObjectReference>>, next: nat, missing: seq<string>)
    | Traversing(entryPoints: seq<Option<ObjectReference>>, missing: seq<string>,
                 work: seq<Work>, found: Findings, answers: map<Key, Option<Agent>>)

  datatype State = State(agents: Agents, workforces: map<Key, Workforce>, queue: set<Key>, flights: map<Key, Flight>)

  datatype Step =
    | ChangeAgent(agent: Key, now: Option<Agent>)
    | ChangeWorkforce(w: Key, wf: Option<Workforce>)
    | Enqueue(w: Key)
    | Start(w: Key)
    | ValidateNext(w: Key)
    | BeginTraversal(w: Key)
    | TraverseNext(w: Key)
    | WriteStatus(w: Key, transitiveAgents: seq<TransitiveAgent>, transitiveTools: seq<string>)
    | WriteFails(w: Key)

  /** What the watch on agents enqueues, decided by the statuses the workforces have at that moment. */
  function Mapped(workforces: map<Key, Workforce>, agent: Key): set<Key> {
    set w | w in workforces && MapsTo(w, workforces[w], agent)
  }

  function NewStatus(f: Flight, transitiveAgents: seq<TransitiveAgent>, transitiveTools: seq<string>): WorkforceStatus {
    WorkforceStatus(Some(f.missing == []), f.missing, transitiveAgents, transitiveTools)
  }

  ghost predicate Enabled(s: State, step: Step) {
    match step
    case ChangeAgent(k, now) => ValidKey(k) && (now.Some? ==> Admitted(now.value.spec))
    case ChangeWorkforce(_, _) => true
    case Enqueue(_) => true
    case Start(w) => w in s.queue && w !in s.flights
    case ValidateNext(w) =>
      w in s.flights && s.flights[w].Validating? && s.flights[w].next < |Entries(w, s.flights[w].entryPoints)|
    case BeginTraversal(w) =>
      w in s.flights && s.flights[w].Validating? && s.flights[w].next == |Entries(w, s.flights[w].entryPoints)|
    case TraverseNext(w) =>
      w in s.flights && s.flights[w].Traversing? && s.flights[w].work != []
    case WriteStatus(w, transitiveAgents, transitiveTools) =>
      && w in s.flights && s.flights[w].Traversing? && s.flights[w].work == []
      && w in s.workforces && s.workforces[w].entryPoints == s.flights[w].entryPoints
      && ListsAgents(s.flights[w].found, transitiveAgents)
      && IsOrder(transitiveTools, s.flights[w].found.tools)
    case WriteFails(w) => w in s.flights
  }

  /** One entry point looked up. */
  function ValidateOne(agents: Agents, w: Key, f: Flight): Flight
    requires f.Validating? && f.next < |Entries(w, f.entryPoints)|
  {
    var k := Entries(w, f.entryPoints)[f.next];
    f.(next := f.next + 1, missing := f.missing + if k in agents then [] else [KeyString(k)])
  }

  /** One item of the traversal: at most one agent is read. */
  function TraverseOne(agents: Agents, f: Flight): Flight
    requires f.Traversing? && f.work != []
  {
    match f.work[0]
    case Record(n, u) =>
      f.(work := f.work[1..], found := RecordRemote(f.found, n, u))
    case Visit(k) =>
      if KeyString(k) in f.found.visited then
        f.(work := f.work[1..])
      else
        var answer := Lookup(agents, k);
        f.(work := ExpandWork(k, answer) + f.work[1..], found := Expand(f.found, k, answer), answers := f.answers[k := answer])
  }

  function Apply(s: State, step: Step): State
    requires Enabled(s, step)
  {
    match step
    case ChangeAgent(k, now) =>
      s.(agents := Put(s.agents, k, now), queue := s.queue + Mapped(s.workforces, k))
    case ChangeWorkforce(w, wf) =>
      s.(workforces := Put(s.workforces, w, wf), queue := s.queue + {w})
    case Enqueue(w) =>
      s.(queue := s.queue + {w})
    case Start(w) =>
      var s' := s.(queue := s.queue - {w});
      if w in s.workforces then
        s'.(flights := s.flights[w := Validating(s.workforces[w].entryPoints, 0, [])])
      else
        s'
    case ValidateNext(w) =>
      s.(flights := s.flights[w := ValidateOne(s.agents, w, s.flights[w])])
    case BeginTraversal(w) =>
      var f := s.flights[w];
      s.(flights := s.flights[w := Traversing(f.entryPoints, f.missing, Visits(Entries(w, f.entryPoints)), Nothing, map[])])
    case TraverseNext(w) =>
      s.(flights := s.flights[w := TraverseOne(s.agents, s.flights[w])])
    case WriteStatus(w, transitiveAgents, transitiveTools) =>
      var status := NewStatus(s.flights[w], transitiveAgents, transitiveTools);
      var changed := status != s.workforces[w].status;
      s.(workforces := s.workforces[w := s.workforces[w].(status := status)],
         queue := if changed then s.queue + {w} else s.queue,
         flights := s.flights - {w})
    case WriteFails(w) =>
      s.(queue := s.queue + {w}, flights := s.flights - {w})
  }

  ghost predicate Next(s: State, s': State) {
    exists step :: Enabled(s, step) && s' == Apply(s, step)
  }

  /** The manager has just started: every workforce is queued, whatever its status says. */
  ghost predicate Init(s: State) {
    && WellFormed(s.agents)
    && s.workforces.Keys <= s.queue
    && s.flights == map[]
  }

  ghost predicate StepAt(run: seq<State>, i: nat)
    requires i < |run| - 1
  {
    Next(run[i], run[i + 1])
  }

  ghost predicate IsRun(run: seq<State>) {
    && run != []
    && Init(run[0])
    && forall i {:trigger StepAt(run, i)} :: 0 <= i < |run| - 1 ==> StepAt(run, i)
  }

  // ---------------------------------------------------------------- the invariant

  ghost predicate ReadsAgree(agents: Agents, answers: map<Key, Option<Agent>>) {
    forall k <- answers :: Lookup(agents, k) == answers[k]
  }

  /** On any cluster that would have given the same answers, the traversal is where it would be. */
  ghost predicate OnTrack(w: Key, f: Flight)
    requires f.Traversing?
  {
    forall agents: Agents :: ReadsAgree(agents, f.answers) ==>
      Drain(agents, f.work, f.found) == Discover(agents, Entries(w, f.entryPoints))
  }

  /** Every agent read is marked, under its own name if it exists. */
  ghost predicate ReadsMarked(f: Flight)
    requires f.Traversing?
  {
    forall k <- f.answers :: KeyString(k) in f.found.visited && (f.answers[k].Some? ==> ValidKey(k))
  }

  /** An answer that is no longer true came from an agent that the stored index does not hold. */
  ghost predicate StaleReadsUnmapped(agents: Agents, w: Key, wf: Workforce, f: Flight)
    requires f.Traversing?
  {
    forall k <- f.answers :: f.answers[k] != Lookup(agents, k) ==> !MapsTo(w, wf, k)
  }

  ghost predicate GoodTraversal(agents: Agents, w: Key, wf: Workforce, f: Flight)
    requires f.Traversing?
  {
    && f.missing == Missing(agents, Entries(w, f.entryPoints))
    && OnTrack(w, f)
    && ReadsMarked(f)
    && MarksAreFaithful(f.found)
    && RecordsAreUrls(f.work)
    && StaleReadsUnmapped(agents, w, wf, f)
  }

  ghost predicate GoodFlight(agents: Agents, w: Key, wf: Workforce, f: Flight) {
    && f.entryPoints == wf.entryPoints
    && match f
       case Validating(_, next, missing) =>
         && next <= |Entries(w, f.entryPoints)|
         && missing == Missing(agents, Entries(w, f.entryPoints)[..next])
       case Traversing(_, _, _, _, _) => GoodTraversal(agents, w, wf, f)
  }

  /** A workforce that nothing will wake: its status is exact, or its reconcile is on the way to that. */
  ghost predicate Settled(s: State, w: Key)
    requires w in s.workforces
  {
    if w in s.flights then GoodFlight(s.agents, w, s.workforces[w], s.flights[w])
    else ExactStatus(s.agents, w, s.workforces[w].entryPoints, s.workforces[w].status)
  }

  ghost predicate Inv(s: State) {
    && WellFormed(s.agents)
    && forall w <- s.workforces :: w !in s.queue ==> Settled(s, w)
  }

  // ---------------------------------------------------------------- the steps

  lemma EntryIsMappedTo(w: Key, wf: Workforce, k: Key)
    requires k in Entries(w, wf.entryPoints)
    ensures MapsTo(w, wf, k)
  {
    EntryIsMapped(wf.entryPoints, w.namespace, k);
    var e :| e in wf.entryPoints && e.Some? && RefKey(e.value, w.namespace) == k;
    assert KeyString(RefKey(e.value, w.namespace)) == KeyString(k);
  }

  lemma AgentChangeKeepsSettled(s: State, k: Key, now: Option<Agent>, w: Key)
    requires Enabled(s, ChangeAgent(k, now)) && WellFormed(s.agents)
    requires w in s.workforces && !MapsTo(w, s.workforces[w], k)
    requires Settled(s, w)
    ensures Settled(Apply(s, ChangeAgent(k, now)), w)
  {
    var wf := s.workforces[w];
    var agents' := Put(s.agents, k, now);
    assert forall j :: j != k ==> Lookup(s.agents, j) == Lookup(agents', j);
    assert k !in Entries(w, wf.entryPoints) by {
      if k in Entries(w, wf.entryPoints) {
        EntryIsMappedTo(w, wf, k);
      }
    }
    if w in s.flights {
      var f := s.flights[w];
      if f.Validating? {
        MissingFrame(s.agents, agents', k, Entries(w, f.entryPoints)[..f.next]);
      } else {
        MissingFrame(s.agents, agents', k, Entries(w, f.entryPoints));
        assert StaleReadsUnmapped(agents', w, wf, f);
      }
    } else {
      IndexSoundness(s.agents, agents', w, wf, k);
    }
  }

  lemma ValidateKeepsGood(agents: Agents, w: Key, wf: Workforce, f: Flight)
    requires GoodFlight(agents, w, wf, f) && f.Validating? && f.next < |Entries(w, f.entryPoints)|
    ensures GoodFlight(agents, w, wf, ValidateOne(agents, w, f))
  {
    var keys := Entries(w, f.entryPoints);
    assert keys[..f.next + 1][..f.next] == keys[..f.next];
  }

  lemma BeginIsGood(agents: Agents, w: Key, wf: Workforce, f: Flight)
    requires GoodFlight(agents, w, wf, f) && f.Validating? && f.next == |Entries(w, f.entryPoints)|
    ensures GoodFlight(agents, w, wf, Traversing(f.entryPoints, f.missing, Visits(Entries(w, f.entryPoints)), Nothing, map[]))
  {
    assert Entries(w, f.entryPoints)[..f.next] == Entries(w, f.entryPoints);
  }

  /** A key is read at most once, so a new answer contradicts no earlier one. */
  lemma TraverseStaysOnTrack(agents: Agents, w: Key, f: Flight)
    requires f.Traversing? && f.work != [] && OnTrack(w, f) && ReadsMarked(f)
    ensures OnTrack(w, TraverseOne(agents, f))
  {
    var f' := TraverseOne(agents, f);
    forall c: Agents | ReadsAgree(c, f'.answers)
      ensures Drain(c, f'.work, f'.found) == Discover(c, Entries(w, f.entryPoints))
    {
      if f'.answers != f.answers {
        var k := f.work[0].key;
        assert k !in f.answers;
        assert Lookup(c, k) == f'.answers[k] == Lookup(agents, k);
        forall j | j in f.answers
          ensures Lookup(c, j) == f.answers[j]
        {
          assert f'.answers[j] == f.answers[j];
        }
      }
      assert ReadsAgree(c, f.answers);
      assert Drain(c, f.work, f.found) == Drain(c, f'.work, f'.found);
    }
  }

  lemma TraverseKeepsMarks(agents: Agents, f: Flight)
    requires WellFormed(agents) && f.Traversing? && f.work != []
    requires ReadsMarked(f) && MarksAreFaithful(f.found) && RecordsAreUrls(f.work)
    ensures
      var f' := TraverseOne(agents, f);
      ReadsMarked(f') && MarksAreFaithful(f'.found) && RecordsAreUrls(f'.work)
  {
    var f' := TraverseOne(agents, f);
    match f.work[0] {
      case Record(n, u) =>
        assert f.work[0] in f.work;
        RecordStaysFaithful(f.found, n, u);
      case Visit(k) =>
        if KeyString(k) !in f.found.visited {
          MarkStaysFaithful(f.found, k, Lookup(agents, k));
          if k in agents {
            AdmittedRecordsAreUrls(k, agents[k]);
          }
        }
    }
  }

  lemma TraverseKeepsGood(agents: Agents, w: Key, wf: Workforce, f: Flight)
    requires WellFormed(agents) && f.Traversing? && f.work != [] && GoodTraversal(agents, w, wf, f)
    ensures GoodTraversal(agents, w, wf, TraverseOne(agents, f))
  {
    TraverseStaysOnTrack(agents, w, f);
    TraverseKeepsMarks(agents, f);
    assert StaleReadsUnmapped(agents, w, wf, TraverseOne(agents, f));
  }

  /**
    A status write that changes nothing was computed from answers that are
    all still true: an answer that is not would be from an agent that the new
    status lists and the old one does not.
   */
  lemma UnchangedWriteIsExact(agents: Agents, w: Key, wf: Workforce, f: Flight, tas: seq<TransitiveAgent>, tools: seq<string>)
    requires WellFormed(agents) && f.Traversing? && f.work == [] && f.entryPoints == wf.entryPoints
    requires GoodTraversal(agents, w, wf, f)
    requires ListsAgents(f.found, tas) && IsOrder(tools, f.found.tools)
    requires wf.status == NewStatus(f, tas, tools)
    ensures ExactStatus(agents, w, wf.entryPoints, wf.status)
  {
    forall k | k in f.answers
      ensures Lookup(agents, k) == f.answers[k]
    {
      if ValidKey(k) {
        ListedValue(f.found, tas, KeyString(k));
        assert ClusterEntry(k) in wf.status.transitiveAgents;
        assert MapsTo(w, wf, k);
      }
    }
    assert ReadsAgree(agents, f.answers);
    assert f.found == Drain(agents, f.work, f.found);
  }

  lemma FlightStepKeepsInv(s: State, step: Step)
    requires Inv(s) && Enabled(s, step)
    requires step.ValidateNext? || step.BeginTraversal? || step.TraverseNext?
    ensures Inv(Apply(s, step))
  {
    var s' := Apply(s, step);
    var f := s.flights[step.w];
    forall w | w in s'.workforces && w !in s'.queue
      ensures Settled(s', w)
    {
      assert Settled(s, w);
      if w == step.w {
        match step {
          case ValidateNext(_) => ValidateKeepsGood(s.agents, w, s.workforces[w], f);
          case BeginTraversal(_) => BeginIsGood(s.agents, w, s.workforces[w], f);
          case TraverseNext(_) => TraverseKeepsGood(s.agents, w, s.workforces[w], f);
        }
      }
    }
  }

  lemma WriteKeepsInv(s: State, step: Step)
    requires Inv(s) && Enabled(s, step) && step.WriteStatus?
    ensures Inv(Apply(s, step))
  {
    var s' := Apply(s, step);
    forall w | w in s'.workforces && w !in s'.queue
      ensures Settled(s', w)
    {
      assert Settled(s, w);
      if w == step.w {
        UnchangedWriteIsExact(s.agents, w, s.workforces[w], s.flights[w], step.transitiveAgents, step.transitiveTools);
      }
    }
  }

  lemma AgentChangeKeepsInv(s: State, k: Key, now: Option<Agent>)
    requires Inv(s) && Enabled(s, ChangeAgent(k, now))
    ensures Inv(Apply(s, ChangeAgent(k, now)))
  {
    var s' := Apply(s, ChangeAgent(k, now));
    forall w | w in s'.workforces && w !in s'.queue
      ensures Settled(s', w)
    {
      assert !MapsTo(w, s.workforces[w], k);
      AgentChangeKeepsSettled(s, k, now, w);
    }
  }

  lemma NextKeepsInv(s: State, s': State)
    requires Inv(s) && Next(s, s')
    ensures Inv(s')
  {
    var step :| Enabled(s, step) && s' == Apply(s, step);
    match step {
      case ChangeAgent(k, now) => AgentChangeKeepsInv(s, k, now);
      case ValidateNext(_) => FlightStepKeepsInv(s, step);
      case BeginTraversal(_) => FlightStepKeepsInv(s, step);
      case TraverseNext(_) => FlightStepKeepsInv(s, step);
      case WriteStatus(_, _, _) => WriteKeepsInv(s, step);
      case ChangeWorkforce(_, _) => QueueStepKeepsInv(s, step);
      case Enqueue(_) => QueueStepKeepsInv(s, step);
      case Start(_) => StartKeepsInv(s, step);
      case WriteFails(_) => QueueStepKeepsInv(s, step);
    }
  }

  /** A step that queues the workforce it is about settles nothing and unsettles nothing. */
  lemma QueueStepKeepsInv(s: State, step: Step)
    requires Inv(s) && Enabled(s, step) && (step.ChangeWorkforce? || step.Enqueue? || step.WriteFails?)
    ensures Inv(Apply(s, step))
  {
    var s' := Apply(s, step);
    forall w | w in s'.workforces && w !in s'.queue
      ensures Settled(s', w)
    {
      assert Settled(s, w);
    }
  }

  lemma StartKeepsInv(s: State, step: Step)
    requires Inv(s) && Enabled(s, step) && step.Start?
    ensures Inv(Apply(s, step))
  {
    var s' := Apply(s, step);
    forall w | w in s'.workforces && w !in s'.queue
      ensures Settled(s', w)
    {
      if w != step.w {
        assert Settled(s, w);
      } else {
        assert Entries(w, s.workforces[w].entryPoints)[..0] == [];
      }
    }
  }

  lemma {:induction false} RunKeepsInv(run: seq<State>, i: nat)
    requires IsRun(run) && i < |run|
    ensures Inv(run[i])
  {
    if i > 0 {
      RunKeepsInv(run, i - 1);
      assert StepAt(run, i - 1);
      NextKeepsInv(run[i - 1], run[i]);
    }
  }

  /**
    No lost update.  In every run, however agent and workforce changes fall
    between the reads of however many reconciles, a workforce that is neither
    queued nor in flight has a status that is exact now: its cluster agents,
    remote agents, tools and missing entry points are those of the reachable
    set.
   */
  lemma NoLostUpdate(run: seq<State>, i: nat, w: Key)
    requires IsRun(run) && i < |run|
    requires w in run[i].workforces && w !in run[i].queue && w !in run[i].flights
    ensures
      var s, wf := run[i], run[i].workforces[w];
      && ExactStatus(s.agents, w, wf.entryPoints, wf.status)
      && SaysWhatIsThere(s.agents, w.namespace, wf.entryPoints, wf.status)
  {
    RunKeepsInv(run, i);
    assert Settled(run[i], w);
    ExactStatusSays(run[i].agents, w, run[i].workforces[w].entryPoints, run[i].workforces[w].status);
  }
}
