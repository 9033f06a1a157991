/**
  Laws of discovery that follow from its exactness.
 */
module DiscoveryLaws {
  import opened Api
  import opened Keys
  import opened Declarations
  import opened Admission
  import opened Discovery
  import opened DiscoveryTheorems

  /** A possible agent has its entry among the findings exactly when it is reachable. */
  lemma EntryIffReachable(agents: Agents, keys: seq<Key>, k: Key)
    requires WellFormed(agents) && ValidKey(k)
    ensures ClusterEntry(k) in Discover(agents, keys).visited.Values <==> k in Reach(agents, Roots(keys))
    ensures KeyString(k) in Discover(agents, keys).visited <==> k in Reach(agents, Roots(keys))
  {
    var f, reach := Discover(agents, keys), Reach(agents, Roots(keys));
    DiscoverExact(agents, keys);
    if KeyString(k) in f.visited {
      assert Explained(agents, f, reach, KeyString(k));
      MarkedIsReachable(agents, f, reach, k);
    }
    if k in reach {
      DrainMarksFaithfully(agents, Visits(keys), Nothing);
      assert f.visited[KeyString(k)] == ClusterEntry(k);
    }
    if ClusterEntry(k) in f.visited.Values {
      var s :| s in f.visited && f.visited[s] == ClusterEntry(k);
      assert Explained(agents, f, reach, s);
    }
  }

  lemma MarkedIsReachable(agents: Agents, f: Findings, reach: set<Key>, k: Key)
    requires WellFormed(agents) && ValidKey(k) && KeyString(k) in f.visited
    requires Explained(agents, f, reach, KeyString(k))
    ensures k in reach
  {
    if Declared(agents, reach, f.visited[KeyString(k)].name, KeyString(k)) {
      DeclaredIsUrl(agents, reach, f.visited[KeyString(k)].name, KeyString(k));
      UrlIsNotAKey(KeyString(k), k);
    } else {
      var k' :| k' in reach && KeyString(k') == KeyString(k);
      ValidKeyStringUnique(k, k');
    }
  }

  predicate PlainNamespace(k: Key) {
    SlashFree(k.namespace) && ':' !in k.namespace
  }

  lemma UrlIsNotAPlainKey(u: string, k: Key)
    requires HttpUrl(u) && PlainNamespace(k)
    ensures u != KeyString(k)
  {
    FirstSlash(k);
    assert forall i :: 0 <= i < |k.namespace| ==> KeyString(k)[i] == k.namespace[i] != ':';
    if |u| > 7 && LowerAll(u[..7]) == "http://" {
      assert forall i :: 0 <= i < 7 ==> LowerAll(u[..7])[i] == Lower(u[i]);
      assert Lower(u[4]) == ':' && Lower(u[5]) == '/' && forall i :: 0 <= i < 5 ==> Lower(u[i]) != '/';
    } else {
      assert forall i :: 0 <= i < 8 ==> LowerAll(u[..8])[i] == Lower(u[i]);
      assert Lower(u[5]) == ':' && Lower(u[6]) == '/' && forall i :: 0 <= i < 6 ==> Lower(u[i]) != '/';
    }
  }

  /** Each reachable reference, missing agents included, has its entry under its own string. */
  ghost predicate AllKeepTheirEntries(f: Findings, reach: set<Key>) {
    forall k <- reach :: KeyString(k) in f.visited && f.visited[KeyString(k)] == ClusterEntry(k)
  }

  /** No reachable reference shares its string with another one, or with the URL of a remote agent. */
  ghost predicate StringsAreApart(reach: set<Key>, urls: set<string>) {
    && (forall a, b :: a in reach && b in reach && KeyString(a) == KeyString(b) ==> a == b)
    && (forall k <- reach :: KeyString(k) !in urls)
  }

  /** The exact condition for the string-keyed result to be the typed one, on every graph. */
  lemma EntriesAreKeptIffStringsAreApart(agents: Agents, keys: seq<Key>)
    requires WellFormed(agents)
    ensures
      var reach := Reach(agents, Roots(keys));
      AllKeepTheirEntries(Discover(agents, keys), reach) <==> StringsAreApart(reach, UrlsOf(agents, reach))
  {
    var f, reach := Discover(agents, keys), Reach(agents, Roots(keys));
    DiscoverExact(agents, keys);
    forall k | k in reach
      ensures KeyString(k) in f.visited && KeyString(k) != ""
      ensures StringsAreApart(reach, UrlsOf(agents, reach)) ==> f.visited[KeyString(k)] == ClusterEntry(k)
    {
      assert KeyString(k) in Strings(reach);
      assert KeyString(k)[|k.namespace|] == '/';
      assert Explained(agents, f, reach, KeyString(k));
    }
    if AllKeepTheirEntries(f, reach) {
      forall a, b | a in reach && b in reach && KeyString(a) == KeyString(b)
        ensures a == b
      {
        assert ClusterEntry(a) == f.visited[KeyString(a)] == ClusterEntry(b);
      }
    }
  }

  /** So it is when every reachable reference has a namespace without slash and colon, as valid names have. */
  lemma PlainReferencesKeepTheirEntries(agents: Agents, keys: seq<Key>)
    requires WellFormed(agents)
    requires forall k <- Reach(agents, Roots(keys)) :: PlainNamespace(k)
    ensures AllKeepTheirEntries(Discover(agents, keys), Reach(agents, Roots(keys)))
  {
    var reach := Reach(agents, Roots(keys));
    forall a, b | a in reach && b in reach && KeyString(a) == KeyString(b)
      ensures a == b
    {
      KeyStringInjective(a, b);
    }
    forall k | k in reach && KeyString(k) in UrlsOf(agents, reach)
      ensures false
    {
      UrlsAreHttp(agents, reach, KeyString(k));
      UrlIsNotAPlainKey(KeyString(k), k);
    }
    EntriesAreKeptIffStringsAreApart(agents, keys);
  }

  lemma UrlsAreHttp(agents: Agents, keys: set<Key>, u: string)
    requires WellFormed(agents) && u in UrlsOf(agents, keys)
    ensures HttpUrl(u)
  {
    var k :| k in keys && k in agents && u in DeclaredUrls(agents[k].spec);
    var s :| s in agents[k].spec.subAgents && s.agentRef.None? && s.url != "" && s.url == u;
    assert DeclaresRemote(agents[k].spec, s.name, u);
    DeclaredIsUrl(agents, keys, s.name, u);
  }

  /** A namespace that is not plain breaks this: two references share a string, and the second has no entry. */
  lemma MalformedReferencesCanCollide()
    ensures
      var first, second := Key("a/b", "c"), Key("a", "b/c");
      && Discover(map[], [first, second]).visited.Values == {ClusterEntry(first)}
      && second in Reach(map[], Roots([first, second]))
  {
    var first, second := Key("a/b", "c"), Key("a", "b/c");
    assert KeyString(first) == "a/b/c" == KeyString(second);
    assert Visits([first, second]) == [Visit(first), Visit(second)];
    var f := Mark(Nothing, first);
    assert [] + [Visit(first), Visit(second)][1..] == [Visit(second)];
    assert Drain(map[], [Visit(first), Visit(second)], Nothing) == Drain(map[], [Visit(second)], f);
    assert [Visit(second)][1..] == [];
    assert Drain(map[], [Visit(second)], f) == Drain(map[], [], f) == f;
    ReachIsLeast(map[], Roots([first, second]));
  }

  // ---------------------------------------------------------------- the name of a remote agent

  ghost function VisitKeys(work: seq<Work>): set<Key> {
    set w | w in work && w.Visit? :: w.key
  }

  /** Work that declares a URL nowhere leaves its entry alone; `s` holds what the work reaches. */
  lemma {:induction false} UndeclaredEntryStays(agents: Agents, work: seq<Work>, f: Findings, s: set<Key>, url: string)
    requires Closed(agents, s) && VisitKeys(work) <= s && url !in UrlsOf(agents, s)
    requires forall w <- work :: w.Record? ==> w.url != url
    requires url in f.visited
    ensures url in Drain(agents, work, f).visited && Drain(agents, work, f).visited[url] == f.visited[url]
    decreases Pending(agents, work, f), |work|
  {
    if work != [] {
      assert work == [work[0]] + work[1..];
      match work[0] {
        case Record(n, u) =>
          UndeclaredEntryStays(agents, work[1..], RecordRemote(f, n, u), s, url);
        case Visit(k) =>
          assert k in VisitKeys(work);
          if KeyString(k) in f.visited {
            UndeclaredEntryStays(agents, work[1..], f, s, url);
          } else {
            ExpansionShrinksPending(agents, work, f);
            ExpandedWorkIsReached(agents, k, s, url);
            var answer := Lookup(agents, k);
            UndeclaredEntryStays(agents, ExpandWork(k, answer) + work[1..], Expand(f, k, answer), s, url);
          }
      }
    }
  }

  lemma ExpandedWorkIsReached(agents: Agents, k: Key, s: set<Key>, url: string)
    requires Closed(agents, s) && k in s && url !in UrlsOf(agents, s)
    ensures VisitKeys(ExpandWork(k, Lookup(agents, k))) <= s
    ensures forall w <- ExpandWork(k, Lookup(agents, k)) :: w.Record? ==> w.url != url
  {
    if k in agents {
      WorkIsDeclared(k, agents[k]);
      forall w | w in AgentWork(k, agents[k])
        ensures if w.Visit? then w.key in s else w.url != url
      {
        if w.Visit? {
          assert w == Visit(w.key) && w.key in Children(k, agents[k]);
        } else {
          assert w == Record(w.name, w.url) && DeclaresRemote(agents[k].spec, w.name, w.url);
          assert w.url in DeclaredUrls(agents[k].spec);
        }
      }
    }
  }

  /**
    The last declaration of a URL, in the order of the traversal, gives the
    remote agent its name: whatever was done before, and whatever comes after,
    as long as nothing that comes after or is reached from there declares it.
   */
  lemma LastDeclarationNamesTheRemote(agents: Agents, before: seq<Work>, name: string, url: string, after: seq<Work>, f: Findings)
    requires forall w <- after :: w.Record? ==> w.url != url
    requires url !in UrlsOf(agents, Reach(agents, VisitKeys(after)))
    ensures
      var found := Drain(agents, before + [Record(name, url)] + after, f);
      url in found.visited && found.visited[url] == TransitiveAgent(name, "", url)
  {
    var recorded := RecordRemote(Drain(agents, before, f), name, url);
    DrainConcat(agents, before + [Record(name, url)], after, f);
    DrainConcat(agents, before, [Record(name, url)], f);
    assert [Record(name, url)][1..] == [];
    assert Drain(agents, [Record(name, url)], Drain(agents, before, f)) == Drain(agents, [], recorded) == recorded;
    ReachIsLeast(agents, VisitKeys(after));
    UndeclaredEntryStays(agents, after, recorded, Reach(agents, VisitKeys(after)), url);
  }

  // ---------------------------------------------------------------- the entry list

  lemma {:induction false} EntryKeysAre(entries: seq<Option<ObjectReference>>, namespace: string)
    ensures Roots(EntryKeys(entries, namespace)) == EntrySet(entries, namespace)
  {
    if entries != [] {
      EntryKeysAre(entries[1..], namespace);
      assert entries == [entries[0]] + entries[1..];
      var head := if entries[0].Some? then [RefKey(entries[0].value, namespace)] else [];
      assert Roots(head + EntryKeys(entries[1..], namespace)) == Roots(head) + Roots(EntryKeys(entries[1..], namespace));
      if entries[0].Some? {
        LookedUpIsMeant(entries[0].value, namespace, head[0]);
      }
      assert Roots(head) == EntrySet([entries[0]], namespace);
    }
  }

  /** Permuting or repeating entry points, and adding nil ones, changes no set that discovery finds. */
  lemma DiscoveryDependsOnTheEntrySet(agents: Agents, namespace: string,
                                      entries: seq<Option<ObjectReference>>, entries': seq<Option<ObjectReference>>)
    requires WellFormed(agents)
    requires forall e: Option<ObjectReference> :: e.Some? ==> (e in entries <==> e in entries')
    ensures
      var f, f' := Discover(agents, EntryKeys(entries, namespace)), Discover(agents, EntryKeys(entries', namespace));
      f.visited.Keys == f'.visited.Keys && f.tools == f'.tools
  {
    EntryKeysAre(entries, namespace);
    EntryKeysAre(entries', namespace);
    assert Roots(EntryKeys(entries, namespace)) == Roots(EntryKeys(entries', namespace));
    DiscoverExact(agents, EntryKeys(entries, namespace));
    DiscoverExact(agents, EntryKeys(entries', namespace));
  }

  lemma ReachOfUnion(agents: Agents, a: set<Key>, b: set<Key>)
    ensures Reach(agents, a + b) == Reach(agents, a) + Reach(agents, b)
  {
    ReachIsLeast(agents, a);
    ReachIsLeast(agents, b);
    var both := Reach(agents, a) + Reach(agents, b);
    forall s: set<Key> | a + b <= s && Closed(agents, s)
      ensures both <= s
    {
      assert a <= s && b <= s;
    }
    LeastIsReach(agents, a + b, both);
  }

  /** Discovery on a concatenation of entry lists finds the union of the separate discoveries. */
  lemma DiscoveryOfConcatenation(agents: Agents, first: seq<Key>, second: seq<Key>)
    requires WellFormed(agents)
    ensures
      var f, g, h := Discover(agents, first), Discover(agents, second), Discover(agents, first + second);
      h.visited.Keys == f.visited.Keys + g.visited.Keys && h.tools == f.tools + g.tools
  {
    DiscoverExact(agents, first);
    DiscoverExact(agents, second);
    DiscoverExact(agents, first + second);
    var r, s := Reach(agents, Roots(first)), Reach(agents, Roots(second));
    assert Roots(first + second) == Roots(first) + Roots(second);
    ReachOfUnion(agents, Roots(first), Roots(second));
    UnionOfParts(agents, r, s);
  }

  lemma UnionOfParts(agents: Agents, r: set<Key>, s: set<Key>)
    ensures Strings(r + s) == Strings(r) + Strings(s)
    ensures UrlsOf(agents, r + s) == UrlsOf(agents, r) + UrlsOf(agents, s)
    ensures ToolsOf(agents, r + s) == ToolsOf(agents, r) + ToolsOf(agents, s)
  {
  }
}
