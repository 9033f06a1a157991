/**
  What the traversal finds, for every graph of references: cyclic ones,
  references to missing agents and malformed references included.
 */
module DiscoveryTheorems {
  import opened Api
  import opened Keys
  import opened Declarations
  import opened Admission
  import opened Discovery

  // ---------------------------------------------------------------- the worklist

  /** Work done in two parts is the same work: what makes the recursive traversal a worklist. */
  lemma {:induction false} DrainConcat(agents: Agents, first: seq<Work>, rest: seq<Work>, f: Findings)
    ensures Drain(agents, first + rest, f) == Drain(agents, rest, Drain(agents, first, f))
    decreases Pending(agents, first, f), |first|
  {
    if first == [] {
      assert first + rest == rest;
    } else {
      assert (first + rest)[1..] == first[1..] + rest;
      match first[0] {
        case Record(n, u) =>
          DrainConcat(agents, first[1..], rest, RecordRemote(f, n, u));
        case Visit(k) =>
          if KeyString(k) in f.visited {
            DrainConcat(agents, first[1..], rest, f);
          } else {
            ExpansionShrinksPending(agents, first, f);
            var answer := Lookup(agents, k);
            var work := ExpandWork(k, answer);
            assert work + (first[1..] + rest) == (work + first[1..]) + rest;
            DrainConcat(agents, work + first[1..], rest, Expand(f, k, answer));
          }
      }
    }
  }

  /** Marks are never taken back. */
  lemma {:induction false} DrainGrows(agents: Agents, work: seq<Work>, f: Findings)
    ensures f.visited.Keys <= Drain(agents, work, f).visited.Keys
    ensures f.tools <= Drain(agents, work, f).tools
    decreases Pending(agents, work, f), |work|
  {
    if work != [] {
      match work[0] {
        case Record(n, u) =>
          DrainGrows(agents, work[1..], RecordRemote(f, n, u));
        case Visit(k) =>
          if KeyString(k) in f.visited {
            DrainGrows(agents, work[1..], f);
          } else {
            ExpansionShrinksPending(agents, work, f);
            var answer := Lookup(agents, k);
            DrainGrows(agents, ExpandWork(k, answer) + work[1..], Expand(f, k, answer));
          }
      }
    }
  }

  /** Two clusters that differ in one agent are told apart only by a traversal that marks that agent. */
  lemma {:induction false} DrainFrame(agents: Agents, agents': Agents, x: Key, work: seq<Work>, f: Findings)
    requires forall k :: k != x ==> Lookup(agents, k) == Lookup(agents', k)
    requires KeyString(x) !in Drain(agents, work, f).visited
    ensures Drain(agents', work, f) == Drain(agents, work, f)
    decreases Pending(agents, work, f), |work|
  {
    if work != [] {
      match work[0] {
        case Record(n, u) =>
          DrainFrame(agents, agents', x, work[1..], RecordRemote(f, n, u));
        case Visit(k) =>
          if KeyString(k) in f.visited {
            DrainFrame(agents, agents', x, work[1..], f);
          } else {
            ExpansionShrinksPending(agents, work, f);
            var answer := Lookup(agents, k);
            var work' := ExpandWork(k, answer) + work[1..];
            DrainGrows(agents, work', Expand(f, k, answer));
            assert k != x;
            DrainFrame(agents, agents', x, work', Expand(f, k, answer));
          }
      }
    }
  }

  // ---------------------------------------------------------------- entries of existing names

  ghost predicate RecordsAreUrls(work: seq<Work>) {
    forall w <- work :: w.Record? ==> HttpUrl(w.url)
  }

  /** Wherever the string of a possible agent is marked, it is marked with that agent's own name and namespace. */
  ghost predicate MarksAreFaithful(f: Findings) {
    forall k: Key | ValidKey(k) && KeyString(k) in f.visited :: f.visited[KeyString(k)] == ClusterEntry(k)
  }

  lemma AdmittedRecordsAreUrls(k: Key, a: Agent)
    requires Admitted(a.spec)
    ensures RecordsAreUrls(AgentWork(k, a))
  {
    forall w | w in AgentWork(k, a) && w.Record?
      ensures HttpUrl(w.url)
    {
      var s :| s in a.spec.subAgents && w in SubAgentWork(s, k.namespace);
      AcceptedSubAgentIsOneKind(s);
    }
  }

  lemma MarkStaysFaithful(f: Findings, k: Key, answer: Option<Agent>)
    requires MarksAreFaithful(f)
    ensures MarksAreFaithful(Expand(f, k, answer))
  {
    forall v: Key | ValidKey(v) && KeyString(v) in Expand(f, k, answer).visited
      ensures Expand(f, k, answer).visited[KeyString(v)] == ClusterEntry(v)
    {
      if KeyString(v) == KeyString(k) {
        ValidKeyStringUnique(v, k);
      }
    }
  }

  lemma RecordStaysFaithful(f: Findings, name: string, url: string)
    requires MarksAreFaithful(f) && HttpUrl(url)
    ensures MarksAreFaithful(RecordRemote(f, name, url))
  {
    forall v: Key | ValidKey(v) && KeyString(v) in RecordRemote(f, name, url).visited
      ensures RecordRemote(f, name, url).visited[KeyString(v)] == ClusterEntry(v)
    {
      UrlIsNotAKey(url, v);
    }
  }

  lemma {:induction false} DrainMarksFaithfully(agents: Agents, work: seq<Work>, f: Findings)
    requires WellFormed(agents) && RecordsAreUrls(work) && MarksAreFaithful(f)
    ensures MarksAreFaithful(Drain(agents, work, f))
    decreases Pending(agents, work, f), |work|
  {
    if work != [] {
      match work[0] {
        case Record(n, u) =>
          RecordStaysFaithful(f, n, u);
          DrainMarksFaithfully(agents, work[1..], RecordRemote(f, n, u));
        case Visit(k) =>
          if KeyString(k) in f.visited {
            DrainMarksFaithfully(agents, work[1..], f);
          } else {
            ExpansionShrinksPending(agents, work, f);
            MarkStaysFaithful(f, k, Lookup(agents, k));
            if k in agents {
              AdmittedRecordsAreUrls(k, agents[k]);
            }
            DrainMarksFaithfully(agents, ExpandWork(k, Lookup(agents, k)) + work[1..], Expand(f, k, Lookup(agents, k)));
          }
      }
    }
  }

  // ---------------------------------------------------------------- exactness

  /** The string holds a remote entry: one that gives it as its URL. */
  ghost predicate IsRemote(f: Findings, u: string) {
    u in f.visited && f.visited[u].url == u
  }

  /** One item of an agent in `seen` is accounted for by the findings: a remote entry, once there, is never replaced by a cluster entry. */
  ghost predicate Done(w: Work, f: Findings, seen: set<Key>) {
    match w
    case Visit(k) => k in seen
    case Record(_, u) => IsRemote(f, u)
  }

  /** A marked string is an agent that was seen, or a URL that an agent that was seen declares. */
  ghost predicate Explained(agents: Agents, f: Findings, seen: set<Key>, s: string)
    requires s in f.visited
  {
    || (exists k :: k in seen && KeyString(k) == s && f.visited[s] == ClusterEntry(k))
    || (f.visited[s].namespace == "" && f.visited[s].url == s && Declared(agents, seen, f.visited[s].name, s))
  }

  /** Every root was seen or waits. */
  ghost predicate RootsCovered(roots: set<Key>, work: seq<Work>, seen: set<Key>) {
    forall r <- roots :: r in seen || Visit(r) in work
  }

  /** Every item of an existing agent that was seen is done or waits. */
  ghost predicate ItemsCovered(agents: Agents, work: seq<Work>, f: Findings, seen: set<Key>) {
    forall k, w | k in seen && k in agents && w in AgentWork(k, agents[k]) :: Done(w, f, seen) || w in work
  }

  /** Whatever was seen or waits is needed by every closed set that holds the roots. */
  ghost predicate OnlyNeeded(agents: Agents, roots: set<Key>, work: seq<Work>, seen: set<Key>) {
    && (forall k <- seen :: InEveryClosed(agents, roots, k))
    && (forall w <- work :: w.Visit? ==> InEveryClosed(agents, roots, w.key))
  }

  ghost predicate WaitingDeclared(agents: Agents, work: seq<Work>, seen: set<Key>) {
    forall w <- work :: w.Record? ==> Declared(agents, seen, w.name, w.url)
  }

  ghost predicate SeenMarked(f: Findings, seen: set<Key>) {
    forall k <- seen :: KeyString(k) in f.visited
  }

  ghost predicate AllExplained(agents: Agents, f: Findings, seen: set<Key>) {
    forall s <- f.visited :: Explained(agents, f, seen, s)
  }

  /** The state of a traversal half way: `seen` are the keys it was called on. */
  ghost predicate HalfWay(agents: Agents, roots: set<Key>, work: seq<Work>, f: Findings, seen: set<Key>) {
    && RootsCovered(roots, work, seen)
    && ItemsCovered(agents, work, f, seen)
    && OnlyNeeded(agents, roots, work, seen)
    && WaitingDeclared(agents, work, seen)
    && SeenMarked(f, seen)
    && AllExplained(agents, f, seen)
    && f.tools == ToolsOf(agents, seen)
  }

  lemma DeclaredGrows(agents: Agents, seen: set<Key>, k: Key, name: string, url: string)
    requires Declared(agents, seen, name, url)
    ensures Declared(agents, seen + {k}, name, url)
  {
    var d :| d in seen && d in agents && DeclaresRemote(agents[d].spec, name, url);
    assert d in seen + {k};
  }

  lemma DeclaredIsUrl(agents: Agents, seen: set<Key>, name: string, url: string)
    requires WellFormed(agents) && Declared(agents, seen, name, url)
    ensures HttpUrl(url)
  {
    var d :| d in seen && d in agents && DeclaresRemote(agents[d].spec, name, url);
    WorkIsDeclared(d, agents[d]);
    AdmittedRecordsAreUrls(d, agents[d]);
  }

  lemma WaitingDeclaredGrows(agents: Agents, work: seq<Work>, seen: set<Key>, k: Key)
    requires WaitingDeclared(agents, work, seen)
    ensures WaitingDeclared(agents, work, seen + {k})
  {
    forall w | w in work && w.Record?
      ensures Declared(agents, seen + {k}, w.name, w.url)
    {
      DeclaredGrows(agents, seen, k, w.name, w.url);
    }
  }

  lemma ExplainedGrows(agents: Agents, f: Findings, seen: set<Key>, k: Key)
    requires AllExplained(agents, f, seen)
    ensures AllExplained(agents, f, seen + {k})
  {
    forall s | s in f.visited
      ensures Explained(agents, f, seen + {k}, s)
    {
      assert Explained(agents, f, seen, s);
      if Declared(agents, seen, f.visited[s].name, s) {
        DeclaredGrows(agents, seen, k, f.visited[s].name, s);
      }
    }
  }

  lemma RecordExplained(agents: Agents, f: Findings, seen: set<Key>, name: string, url: string)
    requires AllExplained(agents, f, seen) && Declared(agents, seen, name, url)
    ensures AllExplained(agents, RecordRemote(f, name, url), seen)
  {
    forall s | s in RecordRemote(f, name, url).visited
      ensures Explained(agents, RecordRemote(f, name, url), seen, s)
    {
      if s != url {
        assert Explained(agents, f, seen, s);
      }
    }
  }

  lemma MarkExplained(agents: Agents, f: Findings, seen: set<Key>, k: Key)
    requires AllExplained(agents, f, seen) && k in seen
    ensures AllExplained(agents, Expand(f, k, Lookup(agents, k)), seen)
  {
    var f' := Expand(f, k, Lookup(agents, k));
    forall s | s in f'.visited
      ensures Explained(agents, f', seen, s)
    {
      if s != KeyString(k) {
        assert Explained(agents, f, seen, s);
      }
    }
  }

  lemma HalfWayRecord(agents: Agents, roots: set<Key>, work: seq<Work>, f: Findings, seen: set<Key>)
    requires HalfWay(agents, roots, work, f, seen)
    requires work != [] && work[0].Record?
    ensures HalfWay(agents, roots, work[1..], RecordRemote(f, work[0].name, work[0].url), seen)
  {
    RecordCovers(agents, roots, work, f, seen);
    TailNeeds(agents, roots, work, seen);
    assert WaitingDeclared(agents, work[1..], seen);
    RecordExplained(agents, f, seen, work[0].name, work[0].url);
  }

  lemma RecordCovers(agents: Agents, roots: set<Key>, work: seq<Work>, f: Findings, seen: set<Key>)
    requires RootsCovered(roots, work, seen) && ItemsCovered(agents, work, f, seen)
    requires work != [] && work[0].Record?
    ensures RootsCovered(roots, work[1..], seen)
    ensures ItemsCovered(agents, work[1..], RecordRemote(f, work[0].name, work[0].url), seen)
  {
    assert work == [work[0]] + work[1..];
    forall j, w | j in seen && j in agents && w in AgentWork(j, agents[j])
      ensures Done(w, RecordRemote(f, work[0].name, work[0].url), seen) || w in work[1..]
    {
      assert Done(w, f, seen) || w in work;
    }
  }

  lemma TailNeeds(agents: Agents, roots: set<Key>, work: seq<Work>, seen: set<Key>)
    requires OnlyNeeded(agents, roots, work, seen) && work != []
    ensures OnlyNeeded(agents, roots, work[1..], seen)
  {
  }

  /** An agent that exists is skipped only when it was seen itself: no other reference has its string. */
  lemma SkippedWasSeen(agents: Agents, f: Findings, seen: set<Key>, k: Key)
    requires WellFormed(agents) && k in agents && KeyString(k) in f.visited
    requires AllExplained(agents, f, seen)
    ensures k in seen
  {
    assert Explained(agents, f, seen, KeyString(k));
    if Declared(agents, seen, f.visited[KeyString(k)].name, KeyString(k)) {
      DeclaredIsUrl(agents, seen, f.visited[KeyString(k)].name, KeyString(k));
      UrlIsNotAKey(KeyString(k), k);
    } else {
      var k' :| k' in seen && KeyString(k') == KeyString(k);
      ValidKeyStringUnique(k, k');
    }
  }

  /** The coverage of a traversal does not change when it skips a key that it has seen, or that no agent has. */
  lemma SkipCovers(agents: Agents, roots: set<Key>, work: seq<Work>, f: Findings, seen: set<Key>)
    requires RootsCovered(roots, work, seen) && ItemsCovered(agents, work, f, seen)
    requires work != [] && work[0].Visit? && (work[0].key in agents ==> work[0].key in seen)
    ensures RootsCovered(roots, work[1..], seen + {work[0].key})
    ensures ItemsCovered(agents, work[1..], f, seen + {work[0].key})
  {
    var k, seen' := work[0].key, seen + {work[0].key};
    assert work == [work[0]] + work[1..];
    forall j, w | j in seen' && j in agents && w in AgentWork(j, agents[j])
      ensures Done(w, f, seen') || w in work[1..]
    {
      assert j in seen;
      assert Done(w, f, seen) || w in work;
    }
  }

  lemma HalfWaySkip(agents: Agents, roots: set<Key>, work: seq<Work>, f: Findings, seen: set<Key>)
    requires WellFormed(agents) && HalfWay(agents, roots, work, f, seen)
    requires work != [] && work[0].Visit? && KeyString(work[0].key) in f.visited
    ensures HalfWay(agents, roots, work[1..], f, seen + {work[0].key})
  {
    var k := work[0].key;
    if k in agents {
      SkippedWasSeen(agents, f, seen, k);
    }
    SkipCovers(agents, roots, work, f, seen);
    SkipNeeds(agents, roots, work, seen);
    WaitingDeclaredGrows(agents, work, seen, k);
    assert WaitingDeclared(agents, work[1..], seen + {k});
    ExplainedGrows(agents, f, seen, k);
    SkipToolsOf(agents, seen, k);
  }

  lemma SkipToolsOf(agents: Agents, seen: set<Key>, k: Key)
    requires k in agents ==> k in seen
    ensures ToolsOf(agents, seen + {k}) == ToolsOf(agents, seen)
  {
  }

  lemma SkipNeeds(agents: Agents, roots: set<Key>, work: seq<Work>, seen: set<Key>)
    requires OnlyNeeded(agents, roots, work, seen)
    requires work != [] && work[0].Visit?
    ensures OnlyNeeded(agents, roots, work[1..], seen + {work[0].key})
  {
    assert work == [work[0]] + work[1..];
  }

  lemma ChildIsInEveryClosed(agents: Agents, roots: set<Key>, k: Key, c: Key)
    requires k in agents && InEveryClosed(agents, roots, k) && Visit(c) in AgentWork(k, agents[k])
    ensures InEveryClosed(agents, roots, c)
  {
    WorkIsDeclared(k, agents[k]);
    assert c in Children(k, agents[k]);
  }

  lemma ExpandNeeds(agents: Agents, roots: set<Key>, work: seq<Work>, seen: set<Key>)
    requires OnlyNeeded(agents, roots, work, seen)
    requires work != [] && work[0].Visit?
    ensures OnlyNeeded(agents, roots, ExpandWork(work[0].key, Lookup(agents, work[0].key)) + work[1..], seen + {work[0].key})
  {
    SkipNeeds(agents, roots, work, seen);
    var k := work[0].key;
    forall w | w in ExpandWork(k, Lookup(agents, k)) && w.Visit?
      ensures InEveryClosed(agents, roots, w.key)
    {
      ChildIsInEveryClosed(agents, roots, k, w.key);
    }
  }

  lemma ExpandCovers(agents: Agents, roots: set<Key>, work: seq<Work>, f: Findings, seen: set<Key>)
    requires RootsCovered(roots, work, seen) && ItemsCovered(agents, work, f, seen)
    requires work != [] && work[0].Visit? && KeyString(work[0].key) !in f.visited
    ensures
      var k := work[0].key;
      var answer := Lookup(agents, k);
      && RootsCovered(roots, ExpandWork(k, answer) + work[1..], seen + {k})
      && ItemsCovered(agents, ExpandWork(k, answer) + work[1..], Expand(f, k, answer), seen + {k})
  {
    var k, seen' := work[0].key, seen + {work[0].key};
    var answer := Lookup(agents, k);
    var work' := ExpandWork(k, answer) + work[1..];
    assert work == [work[0]] + work[1..];
    forall j, w | j in seen' && j in agents && w in AgentWork(j, agents[j])
      ensures Done(w, Expand(f, k, answer), seen') || w in work'
    {
      if j in seen {
        assert Done(w, f, seen) || w in work;
      } else {
        assert w in ExpandWork(k, answer);
      }
    }
  }

  lemma ExpandWaiting(agents: Agents, work: seq<Work>, seen: set<Key>)
    requires WaitingDeclared(agents, work, seen)
    requires work != [] && work[0].Visit?
    ensures WaitingDeclared(agents, ExpandWork(work[0].key, Lookup(agents, work[0].key)) + work[1..], seen + {work[0].key})
  {
    var k := work[0].key;
    WaitingDeclaredGrows(agents, work, seen, k);
    forall w | w in ExpandWork(k, Lookup(agents, k)) && w.Record?
      ensures Declared(agents, seen + {k}, w.name, w.url)
    {
      WorkIsDeclared(k, agents[k]);
      assert k in agents && Record(w.name, w.url) in AgentWork(k, agents[k]);
    }
  }

  lemma ExpandToolsOf(agents: Agents, seen: set<Key>, k: Key)
    ensures ToolsOf(agents, seen + {k})
            == ToolsOf(agents, seen) + (if k in agents then AgentTools(k, agents[k]) else {})
  {
    if k in agents {
      WorkIsDeclared(k, agents[k]);
    }
  }

  lemma HalfWayExpand(agents: Agents, roots: set<Key>, work: seq<Work>, f: Findings, seen: set<Key>)
    requires HalfWay(agents, roots, work, f, seen)
    requires work != [] && work[0].Visit? && KeyString(work[0].key) !in f.visited
    ensures
      var k := work[0].key;
      var answer := Lookup(agents, k);
      HalfWay(agents, roots, ExpandWork(k, answer) + work[1..], Expand(f, k, answer), seen + {k})
  {
    var k := work[0].key;
    var answer := Lookup(agents, k);
    ExpandCovers(agents, roots, work, f, seen);
    ExpandNeeds(agents, roots, work, seen);
    ExpandWaiting(agents, work, seen);
    ExplainedGrows(agents, f, seen, k);
    MarkExplained(agents, f, seen + {k}, k);
    ExpandToolsOf(agents, seen, k);
  }

  lemma {:induction false} DrainIsExact(agents: Agents, roots: set<Key>, work: seq<Work>, f: Findings, seen: set<Key>)
    returns (all: set<Key>)
    requires WellFormed(agents) && HalfWay(agents, roots, work, f, seen)
    ensures HalfWay(agents, roots, [], Drain(agents, work, f), all)
    decreases Pending(agents, work, f), |work|
  {
    if work == [] {
      all := seen;
    } else {
      match work[0] {
        case Record(n, u) =>
          HalfWayRecord(agents, roots, work, f, seen);
          all := DrainIsExact(agents, roots, work[1..], RecordRemote(f, n, u), seen);
        case Visit(k) =>
          if KeyString(k) in f.visited {
            HalfWaySkip(agents, roots, work, f, seen);
            all := DrainIsExact(agents, roots, work[1..], f, seen + {k});
          } else {
            ExpansionShrinksPending(agents, work, f);
            HalfWayExpand(agents, roots, work, f, seen);
            var answer := Lookup(agents, k);
            all := DrainIsExact(agents, roots, ExpandWork(k, answer) + work[1..], Expand(f, k, answer), seen + {k});
          }
      }
    }
  }

  ghost function Roots(keys: seq<Key>): set<Key> {
    set k | k in keys
  }

  lemma NothingIsHalfWay(agents: Agents, keys: seq<Key>)
    ensures HalfWay(agents, Roots(keys), Visits(keys), Nothing, {})
  {
    forall r | r in Roots(keys)
      ensures Visit(r) in Visits(keys)
    {
      var i :| 0 <= i < |keys| && keys[i] == r;
      assert Visits(keys)[i] == Visit(r);
    }
    assert ToolsOf(agents, {}) == {};
  }

  /** With no work left, the keys seen are the reachable ones. */
  lemma NoWorkMeansReach(agents: Agents, roots: set<Key>, f: Findings, all: set<Key>)
    requires RootsCovered(roots, [], all) && ItemsCovered(agents, [], f, all) && OnlyNeeded(agents, roots, [], all)
    ensures all == Reach(agents, roots)
  {
    forall k | k in all && k in agents
      ensures Children(k, agents[k]) <= all
    {
      forall c | c in Children(k, agents[k])
        ensures c in all
      {
        WorkIsDeclared(k, agents[k]);
        assert Visit(c) in AgentWork(k, agents[k]);
      }
    }
    LeastIsReach(agents, roots, all);
  }

  lemma UrlIsMarked(agents: Agents, f: Findings, all: set<Key>, u: string)
    requires ItemsCovered(agents, [], f, all) && u in UrlsOf(agents, all)
    ensures IsRemote(f, u)
  {
    var k :| k in all && k in agents && u in DeclaredUrls(agents[k].spec);
    var s :| s in agents[k].spec.subAgents && s.agentRef.None? && s.url != "" && s.url == u;
    WorkIsDeclared(k, agents[k]);
    assert DeclaresRemote(agents[k].spec, s.name, u);
    assert Done(Record(s.name, u), f, all);
  }

  lemma DeclaredUrlIsKnown(agents: Agents, keys: set<Key>, name: string, url: string)
    requires Declared(agents, keys, name, url)
    ensures url in UrlsOf(agents, keys)
  {
    var k :| k in keys && k in agents && DeclaresRemote(agents[k].spec, name, url);
    assert url in DeclaredUrls(agents[k].spec);
  }

  lemma MarkIsNamed(agents: Agents, f: Findings, all: set<Key>, s: string)
    requires s in f.visited && Explained(agents, f, all, s)
    ensures s in Strings(all) + UrlsOf(agents, all)
  {
    if Declared(agents, all, f.visited[s].name, s) {
      DeclaredUrlIsKnown(agents, all, f.visited[s].name, s);
    }
  }

  lemma NoWorkMeansAllStrings(agents: Agents, f: Findings, all: set<Key>)
    requires ItemsCovered(agents, [], f, all) && SeenMarked(f, all) && AllExplained(agents, f, all)
    ensures f.visited.Keys == Strings(all) + UrlsOf(agents, all)
  {
    forall s
      ensures s in f.visited.Keys <==> s in Strings(all) + UrlsOf(agents, all)
    {
      if s in f.visited {
        MarkIsNamed(agents, f, all, s);
      }
      if s in UrlsOf(agents, all) {
        UrlIsMarked(agents, f, all, s);
      }
    }
  }

  /** The entries that are remote are exactly the declared URLs, each under itself; every other entry has no URL. */
  ghost predicate RemotesAre(f: Findings, urls: set<string>) {
    && urls <= f.visited.Keys
    && forall s <- f.visited :: f.visited[s].url == if s in urls then s else ""
  }

  lemma NoWorkMeansRemotes(agents: Agents, f: Findings, all: set<Key>)
    requires ItemsCovered(agents, [], f, all) && AllExplained(agents, f, all)
    ensures RemotesAre(f, UrlsOf(agents, all))
  {
    forall u | u in UrlsOf(agents, all)
      ensures IsRemote(f, u)
    {
      UrlIsMarked(agents, f, all, u);
    }
    forall s | s in f.visited && s !in UrlsOf(agents, all)
      ensures f.visited[s].url == ""
    {
      assert Explained(agents, f, all, s);
      if Declared(agents, all, f.visited[s].name, s) {
        DeclaredUrlIsKnown(agents, all, f.visited[s].name, s);
      }
    }
  }

  /**
    Exactness.  The strings found are those of the reachable agents and of
    the remote agents that reachable existing agents declare, and the entries
    with a URL are exactly the latter; the tools are those of the reachable
    existing agents; and every entry names an agent or a declaration.
   */
  lemma DiscoverExact(agents: Agents, keys: seq<Key>)
    requires WellFormed(agents)
    ensures
      var f := Discover(agents, keys);
      var reach := Reach(agents, Roots(keys));
      && f.visited.Keys == Strings(reach) + UrlsOf(agents, reach)
      && RemotesAre(f, UrlsOf(agents, reach))
      && f.tools == ToolsOf(agents, reach)
      && AllExplained(agents, f, reach)
  {
    NothingIsHalfWay(agents, keys);
    var all := DrainIsExact(agents, Roots(keys), Visits(keys), Nothing, {});
    NoWorkMeansReach(agents, Roots(keys), Discover(agents, keys), all);
    NoWorkMeansAllStrings(agents, Discover(agents, keys), all);
    NoWorkMeansRemotes(agents, Discover(agents, keys), all);
  }
}
