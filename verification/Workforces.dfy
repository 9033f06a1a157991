/**
  The AgenticWorkforce resource: its status, what an exact status is, and
  when the watch on agents maps a changed agent to a workforce.
 */
module Workforces {
  import opened Api
  import opened Collections
  import opened Keys
  import opened Declarations
  import opened Admission
  import opened Discovery
  import opened DiscoveryTheorems
  import opened DiscoveryLaws

  /** `ready` and `missing` are the Ready condition; the two lists have no promised order. */
  datatype WorkforceStatus = WorkforceStatus(
    ready: Option<bool>,
    missing: seq<string>,
    transitiveAgents: seq<TransitiveAgent>,
    transitiveTools: seq<string>)

  datatype Workforce = Workforce(entryPoints: seq<Option<ObjectReference>>, status: WorkforceStatus)

  function Entries(w: Key, entryPoints: seq<Option<ObjectReference>>): seq<Key> {
    EntryKeys(entryPoints, w.namespace)
  }

  /** The entry points without an agent, in order and with repetitions. */
  function Missing(agents: Agents, keys: seq<Key>): seq<string> {
    if keys == [] then []
    else Missing(agents, keys[..|keys| - 1]) + (if keys[|keys| - 1] in agents then [] else [KeyString(keys[|keys| - 1])])
  }

  /** Every entry of the map exactly once, in some order. */
  ghost predicate ListsAgents(f: Findings, listed: seq<TransitiveAgent>) {
    exists order: seq<string> ::
      && IsOrder(order, f.visited.Keys)
      && |listed| == |order|
      && forall i :: 0 <= i < |order| ==> listed[i] == f.visited[order[i]]
  }

  /** A status that says what a reconcile would find on this cluster. */
  ghost predicate ExactStatus(agents: Agents, w: Key, entryPoints: seq<Option<ObjectReference>>, s: WorkforceStatus) {
    var keys := Entries(w, entryPoints);
    && s.missing == Missing(agents, keys)
    && s.ready == Some(s.missing == [])
    && ListsAgents(Discover(agents, keys), s.transitiveAgents)
    && IsOrder(s.transitiveTools, Discover(agents, keys).tools)
  }

  /** The watch on agents: the agent is an entry point, or it is listed in the status that the workforce has now. */
  predicate MapsTo(w: Key, wf: Workforce, agent: Key) {
    || (exists e <- wf.entryPoints :: e.Some? && KeyString(RefKey(e.value, w.namespace)) == KeyString(agent))
    || (exists t <- wf.status.transitiveAgents :: t.name == agent.name && t.namespace == agent.namespace)
  }

  lemma ListedValue(f: Findings, listed: seq<TransitiveAgent>, s: string)
    requires ListsAgents(f, listed) && s in f.visited
    ensures f.visited[s] in listed
  {
    var order: seq<string> :| IsOrder(order, f.visited.Keys) && |listed| == |order|
                              && forall i :: 0 <= i < |order| ==> listed[i] == f.visited[order[i]];
    assert s in order;
    var i :| 0 <= i < |order| && order[i] == s;
    assert listed[i] == f.visited[s];
  }

  lemma ListedOnly(f: Findings, listed: seq<TransitiveAgent>, t: TransitiveAgent)
    requires ListsAgents(f, listed) && t in listed
    ensures t in f.visited.Values
  {
    var order: seq<string> :| IsOrder(order, f.visited.Keys) && |listed| == |order|
                              && forall i :: 0 <= i < |order| ==> listed[i] == f.visited[order[i]];
    var i :| 0 <= i < |listed| && listed[i] == t;
    assert order[i] in order && f.visited[order[i]] == t;
  }

  /** The remote agents of a status, by URL. */
  function RemotesIn(listed: seq<TransitiveAgent>): set<string> {
    set t | t in listed && t.url != "" :: t.url
  }

  /**
    What a listing says to its reader: possible agents are listed iff they
    are reachable, and nothing unreachable is; the remote agents are exactly
    the URLs declared by reachable agents, each once, under a declared name.
   */
  ghost predicate ListsReachable(agents: Agents, reach: set<Key>, listed: seq<TransitiveAgent>) {
    && (forall k :: ValidKey(k) ==> (ClusterEntry(k) in listed <==> k in reach))
    && (forall t <- listed :: t.url == "" ==> Key(t.namespace, t.name) in reach)
    && RemotesIn(listed) == UrlsOf(agents, reach)
    && (forall t <- listed :: t.url != "" ==> t.namespace == "" && Declared(agents, reach, t.name, t.url))
    && (forall i, j :: 0 <= i < j < |listed| && listed[i].url == listed[j].url ==> listed[i].url == "")
  }

  /** One entry of the map, if discovery is exact, is right as it stands. */
  lemma EntryIsRight(agents: Agents, f: Findings, reach: set<Key>, s: string)
    requires s in f.visited && RemotesAre(f, UrlsOf(agents, reach)) && AllExplained(agents, f, reach)
    ensures
      var t := f.visited[s];
      && (t.url == "" ==> Key(t.namespace, t.name) in reach && KeyString(Key(t.namespace, t.name)) == s)
      && (t.url != "" ==> t.url == s && s in UrlsOf(agents, reach) && t.namespace == "" && Declared(agents, reach, t.name, t.url))
  {
    assert Explained(agents, f, reach, s);
    if Declared(agents, reach, f.visited[s].name, s) {
      DeclaredUrlIsKnown(agents, reach, f.visited[s].name, s);
    }
  }

  /** A remote entry of a listing stands in the place of its URL. */
  lemma RemotePlaces(agents: Agents, f: Findings, reach: set<Key>, listed: seq<TransitiveAgent>) returns (order: seq<string>)
    requires ListsAgents(f, listed)
    requires RemotesAre(f, UrlsOf(agents, reach)) && AllExplained(agents, f, reach)
    ensures |order| == |listed| && forall i, j :: 0 <= i < j < |order| ==> order[i] != order[j]
    ensures forall i :: 0 <= i < |listed| && listed[i].url != "" ==> listed[i].url == order[i] && order[i] in UrlsOf(agents, reach)
  {
    order :| IsOrder(order, f.visited.Keys) && |listed| == |order|
             && forall i :: 0 <= i < |order| ==> listed[i] == f.visited[order[i]];
    forall i | 0 <= i < |listed|
      ensures listed[i].url != "" ==> listed[i].url == order[i] && order[i] in UrlsOf(agents, reach)
    {
      assert order[i] in order;
      EntryIsRight(agents, f, reach, order[i]);
    }
  }

  lemma RemotesAreListed(agents: Agents, f: Findings, reach: set<Key>, listed: seq<TransitiveAgent>)
    requires WellFormed(agents) && ListsAgents(f, listed)
    requires RemotesAre(f, UrlsOf(agents, reach)) && AllExplained(agents, f, reach)
    ensures RemotesIn(listed) == UrlsOf(agents, reach)
    ensures forall i, j :: 0 <= i < j < |listed| && listed[i].url == listed[j].url ==> listed[i].url == ""
  {
    var order := RemotePlaces(agents, f, reach, listed);
    forall u | u in UrlsOf(agents, reach)
      ensures u in RemotesIn(listed)
    {
      UrlIsListed(agents, f, reach, listed, u);
    }
    forall u | u in RemotesIn(listed)
      ensures u in UrlsOf(agents, reach)
    {
      var t :| t in listed && t.url != "" && t.url == u;
      var i :| 0 <= i < |listed| && listed[i] == t;
    }
  }

  lemma UrlIsListed(agents: Agents, f: Findings, reach: set<Key>, listed: seq<TransitiveAgent>, u: string)
    requires WellFormed(agents) && ListsAgents(f, listed) && RemotesAre(f, UrlsOf(agents, reach)) && u in UrlsOf(agents, reach)
    ensures u in RemotesIn(listed)
  {
    UrlsAreHttp(agents, reach, u);
    ListedValue(f, listed, u);
    assert f.visited[u].url == u != "";
  }

  lemma ExactListing(agents: Agents, keys: seq<Key>, listed: seq<TransitiveAgent>)
    requires WellFormed(agents) && ListsAgents(Discover(agents, keys), listed)
    ensures ListsReachable(agents, Reach(agents, Roots(keys)), listed)
  {
    var f, reach := Discover(agents, keys), Reach(agents, Roots(keys));
    DiscoverExact(agents, keys);
    forall k | ValidKey(k)
      ensures ClusterEntry(k) in listed <==> k in reach
    {
      EntryIffReachable(agents, keys, k);
      if ClusterEntry(k) in listed {
        ListedOnly(f, listed, ClusterEntry(k));
      }
      if ClusterEntry(k) in f.visited.Values {
        var s :| s in f.visited && f.visited[s] == ClusterEntry(k);
        ListedValue(f, listed, s);
      }
    }
    forall t | t in listed
      ensures t.url == "" ==> Key(t.namespace, t.name) in reach
      ensures t.url != "" ==> t.namespace == "" && Declared(agents, reach, t.name, t.url)
    {
      ListedOnly(f, listed, t);
      var s :| s in f.visited && f.visited[s] == t;
      EntryIsRight(agents, f, reach, s);
    }
    RemotesAreListed(agents, f, reach, listed);
  }

  // ---------------------------------------------------------------- the order of the lists

  lemma ListingOf(f: Findings, order: seq<string>) returns (listed: seq<TransitiveAgent>)
    requires IsOrder(order, f.visited.Keys)
    ensures ListsAgents(f, listed)
    ensures |listed| == |order| && forall i :: 0 <= i < |order| ==> listed[i] == f.visited[order[i]]
  {
    assert forall i :: 0 <= i < |order| ==> order[i] in order;
    listed := seq(|order|, i requires 0 <= i < |order| => f.visited[order[i]]);
  }

  /** Under different strings discovery never files the same entry. */
  lemma EntriesDiffer(agents: Agents, keys: seq<Key>, s: string, t: string)
    requires WellFormed(agents)
    requires s in Discover(agents, keys).visited && t in Discover(agents, keys).visited
    ensures Discover(agents, keys).visited[s] == Discover(agents, keys).visited[t] <==> s == t
  {
    var f, reach := Discover(agents, keys), Reach(agents, Roots(keys));
    DiscoverExact(agents, keys);
    EntryIsRight(agents, f, reach, s);
    EntryIsRight(agents, f, reach, t);
  }

  /**
    The order of the two lists is consistent, that is the same for every order
    of ranging over the maps, exactly when there is nothing to order.
   */
  lemma OrderIsConsistentIff(agents: Agents, keys: seq<Key>)
    requires WellFormed(agents)
    ensures
      var f := Discover(agents, keys);
      && ((forall a, b :: ListsAgents(f, a) && ListsAgents(f, b) ==> a == b) <==> |f.visited| <= 1)
      && ((forall a, b :: IsOrder(a, f.tools) && IsOrder(b, f.tools) ==> a == b) <==> |f.tools| <= 1)
  {
    var f := Discover(agents, keys);
    OneOrderIff(f.tools);
    OneOrderIff(f.visited.Keys);
    assert |f.visited| == |f.visited.Keys|;
    if |f.visited| > 1 {
      var s, t := TwoOf(f.visited.Keys);
      EntriesDiffer(agents, keys, s, t);
      var first := OrderFrom(f.visited.Keys, s);
      var second := OrderFrom(f.visited.Keys, t);
      var a := ListingOf(f, first);
      var b := ListingOf(f, second);
      assert a[0] != b[0];
    }
  }

  lemma {:induction false} EntryIsMapped(entries: seq<Option<ObjectReference>>, namespace: string, k: Key)
    requires k in EntryKeys(entries, namespace)
    ensures exists e <- entries :: e.Some? && RefKey(e.value, namespace) == k
  {
    if entries != [] {
      assert entries == [entries[0]] + entries[1..];
      if k in EntryKeys(entries[1..], namespace) {
        EntryIsMapped(entries[1..], namespace, k);
      }
    }
  }

  lemma {:induction false} MissingFrame(agents: Agents, agents': Agents, x: Key, keys: seq<Key>)
    requires forall k :: k != x ==> Lookup(agents, k) == Lookup(agents', k)
    requires x !in keys
    ensures Missing(agents, keys) == Missing(agents', keys)
  {
    if keys != [] {
      var last := keys[|keys| - 1];
      assert Lookup(agents, last) == Lookup(agents', last);
      MissingFrame(agents, agents', x, keys[..|keys| - 1]);
    }
  }

  /** With an exact status the watch maps an agent to the workforce exactly when the agent is reachable. */
  lemma IndexIsReachability(agents: Agents, w: Key, wf: Workforce, x: Key)
    requires WellFormed(agents) && ValidKey(x)
    requires ExactStatus(agents, w, wf.entryPoints, wf.status)
    ensures MapsTo(w, wf, x) <==> x in Reach(agents, Roots(Entries(w, wf.entryPoints)))
  {
    var keys := Entries(w, wf.entryPoints);
    var f := Discover(agents, keys);
    EntryIffReachable(agents, keys, x);
    ReachIsLeast(agents, Roots(keys));
    if x in Reach(agents, Roots(keys)) {
      var s :| s in f.visited && f.visited[s] == ClusterEntry(x);
      ListedValue(f, wf.status.transitiveAgents, s);
    }
    if e :| e in wf.entryPoints && e.Some? && KeyString(RefKey(e.value, w.namespace)) == KeyString(x) {
      ValidKeyStringUnique(x, RefKey(e.value, w.namespace));
      LookedUpIsMeant(e.value, w.namespace, x);
      EntryKeysAre(wf.entryPoints, w.namespace);
    }
    if t :| t in wf.status.transitiveAgents && t.name == x.name && t.namespace == x.namespace {
      ListedOnly(f, wf.status.transitiveAgents, t);
      DiscoverExact(agents, keys);
      var s :| s in f.visited && f.visited[s] == t;
      assert Explained(agents, f, Reach(agents, Roots(keys)), s);
      assert t == ClusterEntry(x);
    }
  }

  /**
    Index soundness.  A change of one agent that the watch does not map to a
    workforce with an exact status changes nothing that a reconcile of it
    would find: not one entry, tool or missing entry point.
   */
  lemma IndexSoundness(agents: Agents, agents': Agents, w: Key, wf: Workforce, x: Key)
    requires WellFormed(agents) && ValidKey(x)
    requires forall k :: k != x ==> Lookup(agents, k) == Lookup(agents', k)
    requires ExactStatus(agents, w, wf.entryPoints, wf.status)
    requires !MapsTo(w, wf, x)
    ensures Discover(agents', Entries(w, wf.entryPoints)) == Discover(agents, Entries(w, wf.entryPoints))
    ensures Missing(agents', Entries(w, wf.entryPoints)) == Missing(agents, Entries(w, wf.entryPoints))
    ensures ExactStatus(agents', w, wf.entryPoints, wf.status)
  {
    var keys := Entries(w, wf.entryPoints);
    IndexIsReachability(agents, w, wf, x);
    EntryIffReachable(agents, keys, x);
    ReachIsLeast(agents, Roots(keys));
    DrainFrame(agents, agents', x, Visits(keys), Nothing);
    MissingFrame(agents, agents', x, keys);
  }

  /** The condition is ready exactly when every entry point exists. */
  lemma {:induction false} NothingMissing(agents: Agents, keys: seq<Key>)
    ensures Missing(agents, keys) == [] <==> Roots(keys) <= agents.Keys
  {
    if keys != [] {
      var init, last := keys[..|keys| - 1], keys[|keys| - 1];
      NothingMissing(agents, init);
      assert keys == init + [last];
      assert Roots(keys) == Roots(init) + {last};
      assert |Missing(agents, keys)| == |Missing(agents, init)| + if last in agents then 0 else 1;
    }
  }

  lemma {:induction false} EntryKeysConcat(a: seq<Option<ObjectReference>>, b: seq<Option<ObjectReference>>, namespace: string)
    ensures EntryKeys(a + b, namespace) == EntryKeys(a, namespace) + EntryKeys(b, namespace)
  {
    if a == [] {
      assert a + b == b;
    } else {
      EntryKeysConcat(a[1..], b, namespace);
      assert (a + b)[1..] == a[1..] + b;
      var head := if a[0].Some? then [RefKey(a[0].value, namespace)] else [];
      var x, y := EntryKeys(a[1..], namespace), EntryKeys(b, namespace);
      assert EntryKeys(a + b, namespace) == head + (x + y);
      assert head + (x + y) == (head + x) + y;
    }
  }

  lemma EntriesNext(w: Key, entryPoints: seq<Option<ObjectReference>>, i: nat)
    requires i < |entryPoints|
    ensures Entries(w, entryPoints[..i + 1])
            == if entryPoints[i].Some? then Entries(w, entryPoints[..i]) + [RefKey(entryPoints[i].value, w.namespace)]
               else Entries(w, entryPoints[..i])
  {
    assert entryPoints[..i + 1] == entryPoints[..i] + [entryPoints[i]];
    EntryKeysConcat(entryPoints[..i], [entryPoints[i]], w.namespace);
    assert EntryKeys([], w.namespace) == [];
  }

  lemma MissingNext(agents: Agents, keys: seq<Key>, k: Key)
    ensures Missing(agents, keys + [k]) == Missing(agents, keys) + if k in agents then [] else [KeyString(k)]
  {
    assert (keys + [k])[..|keys|] == keys;
  }

  /** An entry point that is not nil and means no existing agent. */
  predicate IsMissing(agents: Agents, namespace: string, entry: Option<ObjectReference>) {
    entry.Some? && forall k <- agents :: !PointsTo(entry.value, namespace, k)
  }

  function MissingPlaces(agents: Agents, namespace: string, entryPoints: seq<Option<ObjectReference>>, n: nat): set<nat>
    requires n <= |entryPoints|
  {
    set i: nat | i < n && IsMissing(agents, namespace, entryPoints[i])
  }

  /** The list names what stands at these places. */
  ghost predicate NamesAt(namespace: string, entryPoints: seq<Option<ObjectReference>>, places: seq<nat>, missing: seq<string>) {
    && |missing| == |places|
    && forall m :: 0 <= m < |places| ==>
         && places[m] < |entryPoints| && entryPoints[places[m]].Some?
         && missing[m] == NameText(entryPoints[places[m]].value, namespace)
  }

  /** The list names exactly the entry points without an agent, in order and with repetitions. */
  ghost predicate NamesMissing(agents: Agents, namespace: string, entryPoints: seq<Option<ObjectReference>>, missing: seq<string>) {
    exists places: seq<nat> ::
      && PicksInOrder(places, MissingPlaces(agents, namespace, entryPoints, |entryPoints|))
      && NamesAt(namespace, entryPoints, places, missing)
  }

  lemma NextPlace(agents: Agents, namespace: string, entryPoints: seq<Option<ObjectReference>>, n: nat)
    requires n < |entryPoints|
    ensures MissingPlaces(agents, namespace, entryPoints, n + 1)
            == MissingPlaces(agents, namespace, entryPoints, n)
               + if entryPoints[n].Some? && RefKey(entryPoints[n].value, namespace) !in agents then {n} else {}
  {
    var entry := entryPoints[n];
    if entry.Some? {
      var k := RefKey(entry.value, namespace);
      LookedUpIsMeant(entry.value, namespace, k);
      forall j | j in agents
        ensures PointsTo(entry.value, namespace, j) <==> j == k
      {
        LookedUpIsMeant(entry.value, namespace, j);
      }
    }
  }

  lemma NameNext(namespace: string, entryPoints: seq<Option<ObjectReference>>, places: seq<nat>, missing: seq<string>, n: nat)
    requires NamesAt(namespace, entryPoints, places, missing)
    requires n < |entryPoints| && entryPoints[n].Some?
    ensures NamesAt(namespace, entryPoints, places + [n], missing + [KeyString(RefKey(entryPoints[n].value, namespace))])
  {
    LookedUpIsMeant(entryPoints[n].value, namespace, RefKey(entryPoints[n].value, namespace));
  }

  /** The places and the list grow together, one entry point at a time. */
  lemma OneMorePlace(agents: Agents, w: Key, entryPoints: seq<Option<ObjectReference>>, n: nat, places: seq<nat>) returns (places': seq<nat>)
    requires n < |entryPoints|
    requires PicksInOrder(places, MissingPlaces(agents, w.namespace, entryPoints, n))
    requires NamesAt(w.namespace, entryPoints, places, Missing(agents, Entries(w, entryPoints[..n])))
    ensures PicksInOrder(places', MissingPlaces(agents, w.namespace, entryPoints, n + 1))
    ensures NamesAt(w.namespace, entryPoints, places', Missing(agents, Entries(w, entryPoints[..n + 1])))
  {
    EntriesNext(w, entryPoints, n);
    NextPlace(agents, w.namespace, entryPoints, n);
    places' := places;
    var entry := entryPoints[n];
    if entry.Some? {
      MissingNext(agents, Entries(w, entryPoints[..n]), RefKey(entry.value, w.namespace));
      if RefKey(entry.value, w.namespace) !in agents {
        PickNext(places, MissingPlaces(agents, w.namespace, entryPoints, n), n);
        NameNext(w.namespace, entryPoints, places, Missing(agents, Entries(w, entryPoints[..n])), n);
        places' := places + [n];
      }
    }
  }

  lemma {:induction false} FindPlaces(agents: Agents, w: Key, entryPoints: seq<Option<ObjectReference>>, n: nat) returns (places: seq<nat>)
    requires n <= |entryPoints|
    ensures PicksInOrder(places, MissingPlaces(agents, w.namespace, entryPoints, n))
    ensures NamesAt(w.namespace, entryPoints, places, Missing(agents, Entries(w, entryPoints[..n])))
    decreases n
  {
    if n == 0 {
      places := [];
    } else {
      var before := FindPlaces(agents, w, entryPoints, n - 1);
      places := OneMorePlace(agents, w, entryPoints, n - 1, before);
    }
  }

  lemma MissingAreNamed(agents: Agents, w: Key, entryPoints: seq<Option<ObjectReference>>)
    ensures NamesMissing(agents, w.namespace, entryPoints, Missing(agents, Entries(w, entryPoints)))
  {
    var places := FindPlaces(agents, w, entryPoints, |entryPoints|);
    assert entryPoints[..|entryPoints|] == entryPoints;
  }

  /**
    What a status says, read off the specs in the cluster alone: the agents,
    remote agents and tools that are reachable from the entry points, and the
    entry points that do not exist.
   */
  ghost predicate SaysWhatIsThere(agents: Agents, namespace: string, entryPoints: seq<Option<ObjectReference>>, status: WorkforceStatus) {
    var reach := Reach(agents, EntrySet(entryPoints, namespace));
    && ListsReachable(agents, reach, status.transitiveAgents)
    && IsOrder(status.transitiveTools, ToolsOf(agents, reach))
    && NamesMissing(agents, namespace, entryPoints, status.missing)
    && status.ready == Some(EntrySet(entryPoints, namespace) <= agents.Keys)
  }

  lemma ExactStatusSays(agents: Agents, w: Key, entryPoints: seq<Option<ObjectReference>>, status: WorkforceStatus)
    requires WellFormed(agents) && ExactStatus(agents, w, entryPoints, status)
    ensures SaysWhatIsThere(agents, w.namespace, entryPoints, status)
  {
    var keys := Entries(w, entryPoints);
    EntryKeysAre(entryPoints, w.namespace);
    DiscoverExact(agents, keys);
    ExactListing(agents, keys, status.transitiveAgents);
    NothingMissing(agents, keys);
    MissingAreNamed(agents, w, entryPoints);
  }
}
