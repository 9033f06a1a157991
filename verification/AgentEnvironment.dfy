/**
  The variables that the operator derives from an agent's spec: sanitized
  names, the SUB_AGENTS and AGENT_TOOLS documents, and the whole template.
 */
module AgentEnvironment {
  import opened Api
  import opened Collections
  import opened Keys
  import opened Admission
  import opened AgentUrls
  import opened Resolution
  import opened AgentResolvers
  import opened AgentConfig

  // ---------------------------------------------------------------- sanitized names

  predicate IsDigit(c: char) {
    '0' <= c <= '9'
  }

  predicate IsIdentifierChar(c: char) {
    'a' <= c <= 'z' || 'A' <= c <= 'Z' || IsDigit(c) || c == '_'
  }

  predicate IsIdentifier(s: string) {
    s != "" && !IsDigit(s[0]) && forall c <- s :: IsIdentifierChar(c)
  }

  function Replaced(name: string): (r: string)
    ensures |r| == |name|
  {
    seq(|name|, i requires 0 <= i < |name| => if IsIdentifierChar(name[i]) then name[i] else '_')
  }

  function Sanitized(name: string): string {
    var r := Replaced(name);
    if r == "" then AGENT_CONTAINER_NAME
    else if IsDigit(r[0]) then "_" + r
    else r
  }

  /**
    What sanitizing does, character by character: letters, digits and
    underscores stay, everything else becomes an underscore; a leading digit
    gets an underscore in front; and no name at all becomes "agent".
   */
  predicate IsSanitizedForm(name: string, s: string) {
    if name == "" then s == "agent"
    else
      var shift := if '0' <= name[0] <= '9' then 1 else 0;
      && |s| == shift + |name|
      && (shift == 1 ==> s[0] == '_')
      && forall i :: 0 <= i < |name| ==>
           var c := name[i];
           s[shift + i] == if 'a' <= c <= 'z' || 'A' <= c <= 'Z' || '0' <= c <= '9' || c == '_' then c else '_'
  }

  lemma SanitizedHasTheForm(name: string)
    ensures IsSanitizedForm(name, Sanitized(name))
  {
  }

  method SanitizeAgentName(name: string) returns (sanitized: string)
    ensures sanitized == Sanitized(name)
    ensures IsSanitizedForm(name, sanitized)
    ensures IsIdentifier(sanitized)
  {
    sanitized := "";
    var i := 0;
    while i < |name|
      invariant 0 <= i <= |name|
      invariant sanitized == Replaced(name)[..i]
    {
      var c := name[i];
      if IsIdentifierChar(c) {
        sanitized := sanitized + [c];
      } else {
        sanitized := sanitized + "_";
      }
      i := i + 1;
    }
    if |sanitized| > 0 {
      if IsDigit(sanitized[0]) {
        sanitized := "_" + sanitized;
      }
    }
    if sanitized == "" {
      sanitized := AGENT_CONTAINER_NAME;
    }
    SanitizedIsIdentifier(name);
    SanitizedHasTheForm(name);
  }

  lemma SanitizedIsIdentifier(name: string)
    ensures IsIdentifier(Sanitized(name))
  {
    if name == "" {
      assert IsIdentifier("agent");
    }
  }

  /** Sanitizing leaves exactly the legal identifiers alone; so doing it twice is doing it once. */
  lemma SanitizedIffIdentifier(s: string)
    ensures Sanitized(s) == s <==> IsIdentifier(s)
    ensures Sanitized(Sanitized(s)) == Sanitized(s)
  {
    SanitizedIsIdentifier(s);
    IdentifierStays(Sanitized(s));
    if IsIdentifier(s) {
      IdentifierStays(s);
    }
  }

  lemma IdentifierStays(s: string)
    requires IsIdentifier(s)
    ensures Sanitized(s) == s
  {
    assert Replaced(s) == s;
  }

  // ---------------------------------------------------------------- SUB_AGENTS

  ghost function SanitizedNames(names: set<string>): set<string> {
    set n | n in names :: Sanitized(n)
  }

  /** A document that some order of the map gives: each sanitized name with an entry of one of its owners. */
  ghost predicate IsDocument(resolved: map<string, ResolvedSubAgent>, doc: map<string, ResolvedSubAgent>) {
    && doc.Keys == SanitizedNames(resolved.Keys)
    && forall s <- doc :: exists n :: n in resolved && Sanitized(n) == s && doc[s] == resolved[n]
  }

  /** Two names that sanitize to the same identifier. */
  ghost predicate Collide(a: string, b: string) {
    a != b && Sanitized(a) == Sanitized(b)
  }

  ghost predicate SanitizesInjectively(names: set<string>) {
    forall a, b :: a in names && b in names ==> !Collide(a, b)
  }

  /** Ranges over the map in whatever order; fails on an entry without interaction type. */
  method BuildSubAgentsDocument(resolved: map<string, ResolvedSubAgent>) returns (doc: Option<map<string, ResolvedSubAgent>>)
    ensures doc.Some? <==> EnvironmentBuildable(resolved)
    ensures doc.Some? ==> IsDocument(resolved, doc.value)
  {
    var subAgentsMap: map<string, ResolvedSubAgent> := map[];
    var rest := resolved;
    while rest != map[]
      invariant rest.Keys <= resolved.Keys && forall n <- rest :: rest[n] == resolved[n]
      invariant subAgentsMap.Keys == SanitizedNames(resolved.Keys - rest.Keys)
      invariant forall s <- subAgentsMap :: exists n :: n in resolved && Sanitized(n) == s && subAgentsMap[s] == resolved[n]
      invariant forall n <- resolved :: n in rest || resolved[n].interactionType != ""
      decreases rest.Keys
    {
      var name :| name in rest;
      if rest[name].interactionType == "" {
        return None;
      }
      var key := SanitizeAgentName(name);
      ghost var before := subAgentsMap;
      subAgentsMap := subAgentsMap[key := rest[name]];
      assert subAgentsMap[key] == resolved[name];
      rest := rest - {name};
      assert resolved.Keys - rest.Keys == (resolved.Keys - (rest.Keys + {name})) + {name};
    }
    assert resolved.Keys - rest.Keys == resolved.Keys;
    return Some(subAgentsMap);
  }

  lemma {:induction false} ImageSize(names: set<string>)
    ensures |SanitizedNames(names)| <= |names|
    ensures |SanitizedNames(names)| == |names| <==> SanitizesInjectively(names)
  {
    if names != {} {
      var n :| n in names;
      var rest := names - {n};
      ImageSize(rest);
      assert SanitizedNames(names) == SanitizedNames(rest) + {Sanitized(n)};
      assert |names| == |rest| + 1;
      if Sanitized(n) in SanitizedNames(rest) {
        var m :| m in rest && Sanitized(m) == Sanitized(n);
        assert Collide(m, n);
      } else {
        forall a, b | a in names && b in names && Collide(a, b)
          ensures a in rest && b in rest
        {
          assert a != n ==> Sanitized(a) in SanitizedNames(rest);
          assert b != n ==> Sanitized(b) in SanitizedNames(rest);
        }
      }
    }
  }

  /** No sub-agent is lost in the document exactly when no two names collide; then each keeps its own entry. */
  lemma DocumentConservesIffInjective(resolved: map<string, ResolvedSubAgent>, doc: map<string, ResolvedSubAgent>)
    requires IsDocument(resolved, doc)
    ensures |doc| == |resolved| <==> SanitizesInjectively(resolved.Keys)
    ensures SanitizesInjectively(resolved.Keys) ==>
              forall n <- resolved :: Sanitized(n) in doc && doc[Sanitized(n)] == resolved[n]
  {
    ImageSize(resolved.Keys);
    assert |doc| == |doc.Keys| && |resolved| == |resolved.Keys|;
    if SanitizesInjectively(resolved.Keys) {
      forall n | n in resolved
        ensures Sanitized(n) in doc && doc[Sanitized(n)] == resolved[n]
      {
        assert Sanitized(n) in SanitizedNames(resolved.Keys);
        var m :| m in resolved && Sanitized(m) == Sanitized(n) && doc[Sanitized(n)] == resolved[m];
        assert !Collide(m, n);
      }
    }
  }

  ghost function Owner(resolved: map<string, ResolvedSubAgent>, s: string): (n: string)
    requires s in SanitizedNames(resolved.Keys)
    ensures n in resolved && Sanitized(n) == s
  {
    var n :| n in resolved && Sanitized(n) == s;
    n
  }

  lemma DocumentWith(resolved: map<string, ResolvedSubAgent>, n: string) returns (doc: map<string, ResolvedSubAgent>)
    requires n in resolved
    ensures IsDocument(resolved, doc) && Sanitized(n) in doc && doc[Sanitized(n)] == resolved[n]
  {
    var some := map s | s in SanitizedNames(resolved.Keys) :: resolved[Owner(resolved, s)];
    doc := some[Sanitized(n) := resolved[n]];
    assert Sanitized(n) in SanitizedNames(resolved.Keys);
    forall s | s in doc
      ensures exists m :: m in resolved && Sanitized(m) == s && doc[s] == resolved[m]
    {
      if s == Sanitized(n) {
        assert doc[s] == resolved[n];
      } else {
        assert doc[s] == resolved[Owner(resolved, s)];
      }
    }
    assert doc.Keys == SanitizedNames(resolved.Keys);
  }

  /** Sub-agents whose sanitized names collide have the same entry. */
  ghost predicate CollisionsAgree(resolved: map<string, ResolvedSubAgent>) {
    forall a, b :: a in resolved && b in resolved && Collide(a, b) ==> resolved[a] == resolved[b]
  }

  /** The exact condition for the document not to depend on the order: names that collide have the same entry. */
  lemma DocumentIsDeterminedIff(resolved: map<string, ResolvedSubAgent>)
    ensures (forall d, e :: IsDocument(resolved, d) && IsDocument(resolved, e) ==> d == e)
            <==> CollisionsAgree(resolved)
  {
    if CollisionsAgree(resolved) {
      forall d, e | IsDocument(resolved, d) && IsDocument(resolved, e)
        ensures d == e
      {
        forall s | s in d
          ensures d[s] == e[s]
        {
          var a :| a in resolved && Sanitized(a) == s && d[s] == resolved[a];
          var b :| b in resolved && Sanitized(b) == s && e[s] == resolved[b];
          assert a == b || Collide(a, b);
        }
      }
    } else {
      var a, b :| a in resolved && b in resolved && Collide(a, b) && resolved[a] != resolved[b];
      var d := DocumentWith(resolved, a);
      var e := DocumentWith(resolved, b);
      assert d[Sanitized(a)] != e[Sanitized(a)];
    }
  }

  // ---------------------------------------------------------------- from spec to document

  /** No two declarations have one name, or names that sanitize to one. */
  ghost predicate NamesStayApart(subs: seq<SubAgent>) {
    forall i, j :: 0 <= i < j < |subs| ==> Sanitized(subs[i].name) != Sanitized(subs[j].name)
  }

  ghost predicate AllResolved(subs: seq<SubAgent>, answers: seq<Answer>) {
    |subs| == |answers| && forall i :: 0 <= i < |subs| ==> answers[i].Url?
  }

  /** What one declaration asks for. */
  ghost function EntryOf(subs: seq<SubAgent>, answers: seq<Answer>, i: nat): ResolvedSubAgent
    requires AllResolved(subs, answers) && i < |subs|
  {
    ResolvedSubAgent(answers[i].url, subs[i].interactionType)
  }

  ghost predicate HasEntryOf(subs: seq<SubAgent>, answers: seq<Answer>, doc: map<string, ResolvedSubAgent>, i: nat)
    requires AllResolved(subs, answers) && i < |subs|
  {
    Sanitized(subs[i].name) in doc && doc[Sanitized(subs[i].name)] == EntryOf(subs, answers, i)
  }

  /** Under a name stands what the last declaration of that name asks for. */
  lemma {:induction false} LastDeclaration(subs: seq<SubAgent>, answers: seq<Answer>, name: string) returns (i: nat)
    requires AllResolved(subs, answers) && exists s <- subs :: s.name == name
    ensures i < |subs| && subs[i].name == name
    ensures name in SubAgentMap(subs, answers) && SubAgentMap(subs, answers)[name] == EntryOf(subs, answers, i)
  {
    var n := |subs| - 1;
    if subs[n].name == name {
      i := n;
    } else {
      assert subs == subs[..n] + [subs[n]];
      i := LastDeclaration(subs[..n], answers[..n], name);
    }
  }

  lemma DocumentKeys(subs: seq<SubAgent>, answers: seq<Answer>, doc: map<string, ResolvedSubAgent>)
    requires AllResolved(subs, answers) && IsDocument(SubAgentMap(subs, answers), doc)
    ensures doc.Keys == set s | s in subs :: Sanitized(s.name)
  {
    forall s | s in subs
      ensures s.name in SubAgentMap(subs, answers) && Sanitized(s.name) in doc
    {
      var i := LastDeclaration(subs, answers, s.name);
    }
    forall key | key in doc
      ensures exists s <- subs :: Sanitized(s.name) == key
    {
      var name :| name in SubAgentMap(subs, answers) && Sanitized(name) == key;
      SubAgentMapKeepsLast(subs, answers, name);
      var i :| 0 <= i < |subs| && subs[i].name == name;
      assert subs[i] in subs;
    }
  }

  /** Each entry of a document is what some declaration with that sanitized name asks for. */
  lemma EntryIsDeclared(subs: seq<SubAgent>, answers: seq<Answer>, doc: map<string, ResolvedSubAgent>, key: string) returns (i: nat)
    requires AllResolved(subs, answers) && IsDocument(SubAgentMap(subs, answers), doc) && key in doc
    ensures i < |subs| && Sanitized(subs[i].name) == key && doc[key] == EntryOf(subs, answers, i)
  {
    var name :| name in SubAgentMap(subs, answers) && Sanitized(name) == key && doc[key] == SubAgentMap(subs, answers)[name];
    SubAgentMapKeepsLast(subs, answers, name);
    i := LastDeclaration(subs, answers, name);
  }

  /**
    Conservation from the spec to the document.  When all sub-agents resolved,
    the document has as many entries as there are declarations exactly when no
    two declarations have names that sanitize to one, equal names included;
    then each declaration is there, with its own URL and interaction type.
   */
  lemma DeclaredSubAgentsAreConservedIff(subs: seq<SubAgent>, answers: seq<Answer>, doc: map<string, ResolvedSubAgent>)
    requires AllResolved(subs, answers) && IsDocument(SubAgentMap(subs, answers), doc)
    ensures |doc| == |subs| <==> NamesStayApart(subs)
    ensures NamesStayApart(subs) ==> forall i :: 0 <= i < |subs| ==> HasEntryOf(subs, answers, doc, i)
  {
    DocumentKeys(subs, answers, doc);
    SanitizedCount(subs);
    assert |doc| == |doc.Keys|;
    if NamesStayApart(subs) {
      forall i | 0 <= i < |subs|
        ensures HasEntryOf(subs, answers, doc, i)
      {
        var j := EntryIsDeclared(subs, answers, doc, Sanitized(subs[i].name));
      }
    }
  }

  lemma SanitizedCount(subs: seq<SubAgent>)
    ensures |set s | s in subs :: Sanitized(s.name)| == |subs| <==> NamesStayApart(subs)
  {
    var keys := seq(|subs|, i requires 0 <= i < |subs| => Sanitized(subs[i].name));
    ElementCount(keys);
    forall s | s in subs
      ensures Sanitized(s.name) in keys
    {
      var i :| 0 <= i < |subs| && subs[i] == s;
      assert keys[i] == Sanitized(s.name);
    }
    assert (set s | s in subs :: Sanitized(s.name)) == set key | key in keys;
    if NamesStayApart(subs) {
      assert forall i, j :: 0 <= i < j < |keys| ==> keys[i] != keys[j];
    } else {
      var i, j :| 0 <= i < j < |subs| && Sanitized(subs[i].name) == Sanitized(subs[j].name);
      assert keys[i] == keys[j];
    }
  }

  /** Declarations whose names sanitize to one ask for the same. */
  ghost predicate DeclarationsAgree(subs: seq<SubAgent>, answers: seq<Answer>)
    requires AllResolved(subs, answers)
  {
    forall i, j :: 0 <= i < j < |subs| && Sanitized(subs[i].name) == Sanitized(subs[j].name)
      ==> EntryOf(subs, answers, i) == EntryOf(subs, answers, j)
  }

  /** What a declaration asks for survives in every document exactly when the declarations it meets there agree with it. */
  lemma DeclarationsSurviveIff(subs: seq<SubAgent>, answers: seq<Answer>)
    requires AllResolved(subs, answers)
    ensures (forall doc, i | IsDocument(SubAgentMap(subs, answers), doc) && 0 <= i < |subs| :: HasEntryOf(subs, answers, doc, i))
            <==> DeclarationsAgree(subs, answers)
  {
    if DeclarationsAgree(subs, answers) {
      forall doc, i | IsDocument(SubAgentMap(subs, answers), doc) && 0 <= i < |subs|
        ensures HasEntryOf(subs, answers, doc, i)
      {
        DocumentKeys(subs, answers, doc);
        var j := EntryIsDeclared(subs, answers, doc, Sanitized(subs[i].name));
        assert EntryOf(subs, answers, i) == EntryOf(subs, answers, j);
      }
    } else {
      var i, j :| 0 <= i < j < |subs| && Sanitized(subs[i].name) == Sanitized(subs[j].name)
                  && EntryOf(subs, answers, i) != EntryOf(subs, answers, j);
      var last := LastDeclaration(subs, answers, subs[i].name);
      var doc := DocumentWith(SubAgentMap(subs, answers), subs[i].name);
      assert !(HasEntryOf(subs, answers, doc, i) && HasEntryOf(subs, answers, doc, j));
    }
  }

  function RemoteSubAgent(name: string, url: string): SubAgent {
    SubAgent(name, None, url, "tool_call")
  }

  /** The webhook admits two sub-agents "a-b" and "a_b"; there are two documents, and each has lost one. */
  lemma SanitizedNamesCanCollide()
    ensures
      var subs := [RemoteSubAgent("a-b", "http://x"), RemoteSubAgent("a_b", "http://y")];
      var resolved := SubAgentMap(subs, [Url("http://x"), Url("http://y")]);
      && (forall s <- subs :: SubAgentErrors(s) == [])
      && |resolved| == 2
      && IsDocument(resolved, map["a_b" := ResolvedSubAgent("http://x", "tool_call")])
      && IsDocument(resolved, map["a_b" := ResolvedSubAgent("http://y", "tool_call")])
  {
    var x, y := ResolvedSubAgent("http://x", "tool_call"), ResolvedSubAgent("http://y", "tool_call");
    var subs := [RemoteSubAgent("a-b", "http://x"), RemoteSubAgent("a_b", "http://y")];
    var answers := [Url("http://x"), Url("http://y")];
    XAndYAreAdmitted();
    assert subs[..1] == [subs[0]] && answers[..1] == [answers[0]];
    assert SubAgentMap([subs[0]], [answers[0]]) == map["a-b" := x];
    var resolved := SubAgentMap(subs, answers);
    assert resolved == map["a-b" := x, "a_b" := y];
    assert "a-b"[1] != "a_b"[1];
    assert |resolved| == |resolved.Keys| && resolved.Keys == {"a-b", "a_b"};
    assert Replaced("a-b") == "a_b" == Replaced("a_b");
    assert SanitizedNames({"a-b", "a_b"}) == {"a_b"};
    assert resolved["a-b"] == x && resolved["a_b"] == y;
  }

  /** Two sub-agents with one name are admitted, and the first is always lost. */
  lemma EqualNamesCollide()
    ensures
      var subs := [RemoteSubAgent("a", "http://x"), RemoteSubAgent("a", "http://y")];
      var answers := [Url("http://x"), Url("http://y")];
      && (forall s <- subs :: SubAgentErrors(s) == [])
      && forall doc | IsDocument(SubAgentMap(subs, answers), doc) :: doc == map["a" := ResolvedSubAgent("http://y", "tool_call")]
  {
    var x, y := ResolvedSubAgent("http://x", "tool_call"), ResolvedSubAgent("http://y", "tool_call");
    var subs := [RemoteSubAgent("a", "http://x"), RemoteSubAgent("a", "http://y")];
    var answers := [Url("http://x"), Url("http://y")];
    XAndYAreAdmitted();
    assert subs[..1] == [subs[0]] && answers[..1] == [answers[0]];
    assert SubAgentMap([subs[0]], [answers[0]]) == map["a" := x];
    assert SubAgentMap(subs, answers) == map["a" := y];
    assert Replaced("a") == "a";
    assert SanitizedNames({"a"}) == {"a"};
  }

  lemma XAndYAreAdmitted()
    ensures HttpUrl("http://x") && HttpUrl("http://y")
  {
    assert "http://x"[..7] == "http://" == "http://y"[..7];
    assert "http://x"[7..] == "x" && Authority("x") == "x";
    assert "http://y"[7..] == "y" && Authority("y") == "y";
    assert LowerAll("http://") == "http://";
  }

  // ---------------------------------------------------------------- the template

  const BASE_NAMES: seq<string> := [
    "AGENT_NAME", "AGENT_DESCRIPTION", "AGENT_INSTRUCTION", "AGENT_MODEL",
    "OTEL_SEMCONV_STABILITY_OPT_IN", "OTEL_SERVICE_NAME"]

  function TemplateNames(hasUrl: bool, hasGateway: bool): seq<string> {
    BASE_NAMES
    + (if hasUrl then ["AGENT_A2A_RPC_URL"] else [])
    + (if hasGateway then ["LITELLM_PROXY_API_BASE", "LITELLM_PROXY_API_KEY", "USE_LITELLM_PROXY"] else [])
    + ["SUB_AGENTS", "AGENT_TOOLS"]
  }

  lemma TemplateNamesAreDistinct(hasUrl: bool, hasGateway: bool)
    ensures forall i, j :: 0 <= i < j < |TemplateNames(hasUrl, hasGateway)|
              ==> TemplateNames(hasUrl, hasGateway)[i] != TemplateNames(hasUrl, hasGateway)[j]
  {
    var names := TemplateNames(hasUrl, hasGateway);
    var all := TemplateNames(true, true);
    assert |all| == 12;
    assert |all[0]| == 10 && |all[1]| == 17 && |all[2]| == 17 && |all[3]| == 11 && |all[4]| == 29 && |all[5]| == 17;
    assert |all[6]| == 17 && |all[7]| == 22 && |all[8]| == 21 && |all[9]| == 17 && |all[10]| == 10 && |all[11]| == 11;
    assert all[0][0] == 'A' && all[10][0] == 'S';
    assert all[3][6] == 'M' && all[11][6] == 'T';
    assert all[1][6] == 'D' && all[2][6] == 'I' && all[5][6] == 'E' && all[6][6] == 'A' && all[9][6] == 'T';
    assert forall i, j :: 0 <= i < j < 12 ==> all[i] != all[j];
    forall i | 0 <= i < |names|
      ensures names[i] == all[Place(i, hasUrl, hasGateway)]
    {
    }
  }

  /** Where a name of a template stands among the twelve. */
  function Place(i: nat, hasUrl: bool, hasGateway: bool): nat {
    if i < 6 then i
    else if hasUrl then (if i == 6 || hasGateway then i else i + 3)
    else if hasGateway then i + 1
    else i + 4
  }

  lemma NameAtPlace(i: nat, hasUrl: bool, hasGateway: bool)
    requires i < |TemplateNames(hasUrl, hasGateway)|
    ensures
      var j := Place(i, hasUrl, hasGateway);
      && j < 12 && |TemplateNames(true, true)| == 12
      && TemplateNames(hasUrl, hasGateway)[i] == TemplateNames(true, true)[j]
      && (j == 6 ==> hasUrl) && (7 <= j < 10 ==> hasGateway)
  {
  }

  predicate OnItsCondition(name: string, hasUrl: bool, hasGateway: bool) {
    && (name == "AGENT_A2A_RPC_URL" ==> hasUrl)
    && (name == "LITELLM_PROXY_API_BASE" || name == "LITELLM_PROXY_API_KEY" || name == "USE_LITELLM_PROXY" ==> hasGateway)
  }

  /** Each conditional name is there only on its condition. */
  lemma ConditionalName(i: nat, hasUrl: bool, hasGateway: bool)
    requires i < |TemplateNames(hasUrl, hasGateway)|
    ensures
      var name := TemplateNames(hasUrl, hasGateway)[i];
      IsDerivedName(name) && OnItsCondition(name, hasUrl, hasGateway)
  {
    var all := TemplateNames(true, true);
    var j := Place(i, hasUrl, hasGateway);
    NameAtPlace(i, hasUrl, hasGateway);
    TemplateNamesAreDistinct(true, true);
    assert all[6] == "AGENT_A2A_RPC_URL";
    assert all[7] == "LITELLM_PROXY_API_BASE" && all[8] == "LITELLM_PROXY_API_KEY" && all[9] == "USE_LITELLM_PROXY";
    assert j != 6 ==> all[j] != all[6];
    assert !(7 <= j < 10) ==> all[j] != all[7] && all[j] != all[8] && all[j] != all[9];
    TwelveNames(j);
  }

  lemma TwelveNames(j: nat)
    requires j < |TemplateNames(true, true)|
    ensures IsDerivedName(TemplateNames(true, true)[j])
  {
  }

  /** The names that the operator derives. */
  predicate IsDerivedName(name: string) {
    || name == "AGENT_NAME" || name == "AGENT_DESCRIPTION" || name == "AGENT_INSTRUCTION" || name == "AGENT_MODEL"
    || name == "OTEL_SEMCONV_STABILITY_OPT_IN" || name == "OTEL_SERVICE_NAME" || name == "AGENT_A2A_RPC_URL"
    || name == "LITELLM_PROXY_API_BASE" || name == "LITELLM_PROXY_API_KEY" || name == "USE_LITELLM_PROXY"
    || name == "SUB_AGENTS" || name == "AGENT_TOOLS"
  }

  /** The derived variables with a given SUB_AGENTS document. */
  function TemplateVars(k: Key, spec: AgentSpec, subAgents: map<string, ResolvedSubAgent>, tools: map<string, ResolvedTool>,
                        gatewayUrl: Option<string>): seq<EnvVar>
  {
    [ EnvVar("AGENT_NAME", Text(Sanitized(k.name))),
      EnvVar("AGENT_DESCRIPTION", Text(spec.description)),
      EnvVar("AGENT_INSTRUCTION", Text(spec.instruction)),
      EnvVar("AGENT_MODEL", Text(spec.model)),
      EnvVar("OTEL_SEMCONV_STABILITY_OPT_IN", Text("gen_ai_latest_experimental")),
      EnvVar("OTEL_SERVICE_NAME", Text(k.name)) ]
    + (if RpcUrl(k, spec) != "" then [EnvVar("AGENT_A2A_RPC_URL", Text(RpcUrl(k, spec)))] else [])
    + (if gatewayUrl.Some? then
         [ EnvVar("LITELLM_PROXY_API_BASE", Text(gatewayUrl.value)),
           EnvVar("LITELLM_PROXY_API_KEY", Text(k.namespace + "/" + k.name)),
           EnvVar("USE_LITELLM_PROXY", Text("True")) ]
       else [])
    + [ EnvVar("SUB_AGENTS", SubAgentsJson(subAgents)), EnvVar("AGENT_TOOLS", ToolsJson(tools)) ]
  }

  /** A template that some order of the map of sub-agents gives. */
  ghost predicate IsTemplate(k: Key, spec: AgentSpec, subAgents: map<string, ResolvedSubAgent>, tools: map<string, ResolvedTool>,
                             gatewayUrl: Option<string>, vars: seq<EnvVar>) {
    exists doc :: IsDocument(subAgents, doc) && vars == TemplateVars(k, spec, doc, tools, gatewayUrl)
  }

  /** No two derived variables ever share a name, whatever the agent. */
  lemma TemplateIsDistinct(k: Key, spec: AgentSpec, doc: map<string, ResolvedSubAgent>, tools: map<string, ResolvedTool>,
                           gatewayUrl: Option<string>)
    ensures DistinctNames(TemplateVars(k, spec, doc, tools, gatewayUrl))
  {
    TemplateIsNamed(k, spec, doc, tools, gatewayUrl);
    TemplateNamesAreDistinct(RpcUrl(k, spec) != "", gatewayUrl.Some?);
  }

  lemma TemplateIsNamed(k: Key, spec: AgentSpec, doc: map<string, ResolvedSubAgent>, tools: map<string, ResolvedTool>,
                        gatewayUrl: Option<string>)
    ensures
      var vars, names := TemplateVars(k, spec, doc, tools, gatewayUrl), TemplateNames(RpcUrl(k, spec) != "", gatewayUrl.Some?);
      |vars| == |names| && forall i :: 0 <= i < |vars| ==> vars[i].name == names[i]
  {
  }

  // ---------------------------------------------------------------- the template by name

  /** The variable is there with this value, unless it is one that the user has an entry for. */
  ghost predicate Gives(vars: seq<EnvVar>, user: seq<EnvVar>, name: string, value: EnvValue) {
    name in Names(user) || EnvVar(name, value) in vars
  }

  /** The variable is there only if the user has an entry for it. */
  ghost predicate Omits(vars: seq<EnvVar>, user: seq<EnvVar>, name: string) {
    name in Names(vars) ==> name in Names(user)
  }

  /** The variables that come from the spec alone. */
  ghost predicate GivesSpec(k: Key, spec: AgentSpec, vars: seq<EnvVar>, user: seq<EnvVar>) {
    && (exists s :: IsSanitizedForm(k.name, s) && Gives(vars, user, "AGENT_NAME", Text(s)))
    && Gives(vars, user, "AGENT_DESCRIPTION", Text(spec.description))
    && Gives(vars, user, "AGENT_INSTRUCTION", Text(spec.instruction))
    && Gives(vars, user, "AGENT_MODEL", Text(spec.model))
    && Gives(vars, user, "OTEL_SEMCONV_STABILITY_OPT_IN", Text("gen_ai_latest_experimental"))
    && Gives(vars, user, "OTEL_SERVICE_NAME", Text(k.name))
  }

  /** The RPC URL addresses the first A2A protocol; without one there is none. */
  ghost predicate GivesRpcUrl(k: Key, spec: AgentSpec, vars: seq<EnvVar>, user: seq<EnvVar>) {
    && (forall i :: IsFirstA2A(spec.protocols, i) ==>
          exists url :: Addresses(url, k, spec.protocols[i].port, spec.protocols[i].path)
                        && Gives(vars, user, "AGENT_A2A_RPC_URL", Text(url)))
    && ((forall i :: !IsFirstA2A(spec.protocols, i)) ==> Omits(vars, user, "AGENT_A2A_RPC_URL"))
  }

  ghost predicate GivesGateway(k: Key, gatewayUrl: Option<string>, vars: seq<EnvVar>, user: seq<EnvVar>) {
    match gatewayUrl
    case Some(url) =>
      && Gives(vars, user, "LITELLM_PROXY_API_BASE", Text(url))
      && Gives(vars, user, "LITELLM_PROXY_API_KEY", Text(k.namespace + "/" + k.name))
      && Gives(vars, user, "USE_LITELLM_PROXY", Text("True"))
    case None =>
      && Omits(vars, user, "LITELLM_PROXY_API_BASE")
      && Omits(vars, user, "LITELLM_PROXY_API_KEY")
      && Omits(vars, user, "USE_LITELLM_PROXY")
  }

  ghost predicate GivesDocuments(subAgents: map<string, ResolvedSubAgent>, tools: map<string, ResolvedTool>,
                                 vars: seq<EnvVar>, user: seq<EnvVar>) {
    && (exists doc :: IsDocument(subAgents, doc) && Gives(vars, user, "SUB_AGENTS", SubAgentsJson(doc)))
    && Gives(vars, user, "AGENT_TOOLS", ToolsJson(tools))
  }

  /** What the derived variables say, by name, where the user has no entry. */
  ghost predicate VariablesSay(k: Key, spec: AgentSpec, subAgents: map<string, ResolvedSubAgent>,
                               tools: map<string, ResolvedTool>, gatewayUrl: Option<string>, vars: seq<EnvVar>, user: seq<EnvVar>) {
    && GivesSpec(k, spec, vars, user)
    && GivesRpcUrl(k, spec, vars, user)
    && GivesGateway(k, gatewayUrl, vars, user)
    && GivesDocuments(subAgents, tools, vars, user)
    && (forall v <- vars :: IsDerivedName(v.name) || v.name in Names(user))
  }

  lemma TemplateGivesSpec(k: Key, spec: AgentSpec, doc: map<string, ResolvedSubAgent>, tools: map<string, ResolvedTool>,
                          gatewayUrl: Option<string>)
    ensures GivesSpec(k, spec, TemplateVars(k, spec, doc, tools, gatewayUrl), [])
  {
    var template := TemplateVars(k, spec, doc, tools, gatewayUrl);
    SanitizedHasTheForm(k.name);
    assert template[0] == EnvVar("AGENT_NAME", Text(Sanitized(k.name)));
    assert template[1] in template && template[2] in template && template[3] in template && template[4] in template && template[5] in template;
  }

  /** The names of a template are derived ones, and each conditional one is there only on its condition. */
  lemma NamesOfTemplate(k: Key, spec: AgentSpec, doc: map<string, ResolvedSubAgent>, tools: map<string, ResolvedTool>,
                        gatewayUrl: Option<string>)
    ensures
      var vars := TemplateVars(k, spec, doc, tools, gatewayUrl);
      && (forall v <- vars :: IsDerivedName(v.name))
      && (RpcUrl(k, spec) == "" ==> Omits(vars, [], "AGENT_A2A_RPC_URL"))
      && (gatewayUrl.None? ==>
            Omits(vars, [], "LITELLM_PROXY_API_BASE") && Omits(vars, [], "LITELLM_PROXY_API_KEY") && Omits(vars, [], "USE_LITELLM_PROXY"))
  {
    var vars := TemplateVars(k, spec, doc, tools, gatewayUrl);
    var hasUrl, hasGateway := RpcUrl(k, spec) != "", gatewayUrl.Some?;
    TemplateIsNamed(k, spec, doc, tools, gatewayUrl);
    forall v | v in vars
      ensures IsDerivedName(v.name) && OnItsCondition(v.name, hasUrl, hasGateway)
    {
      var i :| 0 <= i < |vars| && vars[i] == v;
      ConditionalName(i, hasUrl, hasGateway);
    }
  }

  lemma TemplateGivesRpcUrl(k: Key, spec: AgentSpec, doc: map<string, ResolvedSubAgent>, tools: map<string, ResolvedTool>,
                            gatewayUrl: Option<string>)
    ensures GivesRpcUrl(k, spec, TemplateVars(k, spec, doc, tools, gatewayUrl), [])
  {
    UrlsAddressTheFirstA2A(k, spec);
    NamesOfTemplate(k, spec, doc, tools, gatewayUrl);
    if i :| IsFirstA2A(spec.protocols, i) {
      CardUrlIffA2A(k, spec);
      var template := TemplateVars(k, spec, doc, tools, gatewayUrl);
      assert template[6] == EnvVar("AGENT_A2A_RPC_URL", Text(RpcUrl(k, spec)));
      assert Gives(template, [], "AGENT_A2A_RPC_URL", Text(RpcUrl(k, spec)));
    }
  }

  lemma TemplateGivesGateway(k: Key, spec: AgentSpec, doc: map<string, ResolvedSubAgent>, tools: map<string, ResolvedTool>,
                             gatewayUrl: Option<string>)
    ensures GivesGateway(k, gatewayUrl, TemplateVars(k, spec, doc, tools, gatewayUrl), [])
  {
    NamesOfTemplate(k, spec, doc, tools, gatewayUrl);
    if gatewayUrl.Some? {
      var template := TemplateVars(k, spec, doc, tools, gatewayUrl);
      var i := if RpcUrl(k, spec) != "" then 7 else 6;
      assert template[i] == EnvVar("LITELLM_PROXY_API_BASE", Text(gatewayUrl.value));
      assert template[i + 1] == EnvVar("LITELLM_PROXY_API_KEY", Text(k.namespace + "/" + k.name));
      assert template[i + 2] == EnvVar("USE_LITELLM_PROXY", Text("True"));
    }
  }

  lemma TemplateGivesDocuments(k: Key, spec: AgentSpec, subAgents: map<string, ResolvedSubAgent>, doc: map<string, ResolvedSubAgent>,
                               tools: map<string, ResolvedTool>, gatewayUrl: Option<string>)
    requires IsDocument(subAgents, doc)
    ensures GivesDocuments(subAgents, tools, TemplateVars(k, spec, doc, tools, gatewayUrl), [])
  {
    var template := TemplateVars(k, spec, doc, tools, gatewayUrl);
    var n := |template|;
    assert template[n - 2] == EnvVar("SUB_AGENTS", SubAgentsJson(doc));
    assert template[n - 1] == EnvVar("AGENT_TOOLS", ToolsJson(tools));
  }

  /** A template says what it should, name by name. */
  lemma TemplateSays(k: Key, spec: AgentSpec, subAgents: map<string, ResolvedSubAgent>, tools: map<string, ResolvedTool>,
                     gatewayUrl: Option<string>, vars: seq<EnvVar>)
    requires IsTemplate(k, spec, subAgents, tools, gatewayUrl, vars)
    ensures VariablesSay(k, spec, subAgents, tools, gatewayUrl, vars, [])
  {
    var doc :| IsDocument(subAgents, doc) && vars == TemplateVars(k, spec, doc, tools, gatewayUrl);
    TemplateGivesSpec(k, spec, doc, tools, gatewayUrl);
    TemplateGivesRpcUrl(k, spec, doc, tools, gatewayUrl);
    TemplateGivesGateway(k, spec, doc, tools, gatewayUrl);
    TemplateGivesDocuments(k, spec, subAgents, doc, tools, gatewayUrl);
    NamesOfTemplate(k, spec, doc, tools, gatewayUrl);
  }

  method BuildTemplateEnvironmentVars(k: Key, spec: AgentSpec, subAgents: map<string, ResolvedSubAgent>,
                                      tools: map<string, ResolvedTool>, gatewayUrl: Option<string>)
    returns (vars: Option<seq<EnvVar>>)
    ensures vars.Some? <==> EnvironmentBuildable(subAgents)
    ensures vars.Some? ==> IsTemplate(k, spec, subAgents, tools, gatewayUrl, vars.value)
    ensures vars.Some? ==> DistinctNames(vars.value)
    ensures vars.Some? ==> VariablesSay(k, spec, subAgents, tools, gatewayUrl, vars.value, [])
  {
    var name := SanitizeAgentName(k.name);
    var v := [
      EnvVar("AGENT_NAME", Text(name)),
      EnvVar("AGENT_DESCRIPTION", Text(spec.description)),
      EnvVar("AGENT_INSTRUCTION", Text(spec.instruction)),
      EnvVar("AGENT_MODEL", Text(spec.model)),
      EnvVar("OTEL_SEMCONV_STABILITY_OPT_IN", Text("gen_ai_latest_experimental")),
      EnvVar("OTEL_SERVICE_NAME", Text(k.name))];
    var rpcUrl := RpcUrl(k, spec);
    if rpcUrl != "" {
      v := v + [EnvVar("AGENT_A2A_RPC_URL", Text(rpcUrl))];
    }
    if gatewayUrl.Some? {
      v := v + [EnvVar("LITELLM_PROXY_API_BASE", Text(gatewayUrl.value))];
      v := v + [EnvVar("LITELLM_PROXY_API_KEY", Text(k.namespace + "/" + k.name))];
      v := v + [EnvVar("USE_LITELLM_PROXY", Text("True"))];
    }
    var doc := BuildSubAgentsDocument(subAgents);
    if doc.None? {
      return None;
    }
    v := v + [EnvVar("SUB_AGENTS", SubAgentsJson(doc.value))];
    v := v + [EnvVar("AGENT_TOOLS", ToolsJson(tools))];
    assert v == TemplateVars(k, spec, doc.value, tools, gatewayUrl);
    TemplateIsDistinct(k, spec, doc.value, tools, gatewayUrl);
    TemplateSays(k, spec, subAgents, tools, gatewayUrl, v);
    return Some(v);
  }

  /**
    The environment of the agent container.  Because the template names are
    distinct for every agent, it is the one merge of a template and the
    user's entries, whatever order maps are ranged over in.
   */
  method ContainerEnvironment(k: Key, spec: AgentSpec, subAgents: map<string, ResolvedSubAgent>,
                              tools: map<string, ResolvedTool>, gatewayUrl: Option<string>)
    returns (env: Option<seq<EnvVar>>)
    ensures env.Some? <==> EnvironmentBuildable(subAgents)
    ensures env.Some? ==> IsContainerEnvironment(k, spec, subAgents, tools, gatewayUrl, env.value)
    ensures env.Some? ==> EnvironmentSays(k, spec, subAgents, tools, gatewayUrl, env.value)
  {
    var vars := BuildTemplateEnvironmentVars(k, spec, subAgents, tools, gatewayUrl);
    if vars.None? {
      return None;
    }
    var merged := MergeEnvironmentVariables(vars.value, spec.env);
    env := Some(merged);
    ContainerEnvironmentSays(k, spec, subAgents, tools, gatewayUrl, merged);
  }

  /** A container environment that some order of ranging over maps gives. */
  ghost predicate IsContainerEnvironment(k: Key, spec: AgentSpec, subAgents: map<string, ResolvedSubAgent>,
                                         tools: map<string, ResolvedTool>, gatewayUrl: Option<string>, env: seq<EnvVar>) {
    exists template :: IsTemplate(k, spec, subAgents, tools, gatewayUrl, template) && IsMerge(template, spec.env, env)
  }

  /**
    The whole environment is determined by the inputs when colliding names of
    sub-agents have the same entry.
   */
  lemma EnvironmentIsDetermined(k: Key, spec: AgentSpec, subAgents: map<string, ResolvedSubAgent>,
                                tools: map<string, ResolvedTool>, gatewayUrl: Option<string>,
                                env: seq<EnvVar>, env': seq<EnvVar>)
    requires CollisionsAgree(subAgents)
    requires IsContainerEnvironment(k, spec, subAgents, tools, gatewayUrl, env)
    requires IsContainerEnvironment(k, spec, subAgents, tools, gatewayUrl, env')
    ensures env == env'
  {
    DocumentIsDeterminedIff(subAgents);
    var template :| IsTemplate(k, spec, subAgents, tools, gatewayUrl, template) && IsMerge(template, spec.env, env);
    var template' :| IsTemplate(k, spec, subAgents, tools, gatewayUrl, template') && IsMerge(template', spec.env, env');
    var doc :| IsDocument(subAgents, doc) && template == TemplateVars(k, spec, doc, tools, gatewayUrl);
    TemplateIsDistinct(k, spec, doc, tools, gatewayUrl);
    assert template == template';
    MergeIsUnique(template, spec.env, env, env');
  }

  // ---------------------------------------------------------------- the environment by name

  /**
    What the container's environment says: every derived variable with its
    value where the user has no entry, the last entry of every name the user
    has, nothing else, in the order of code points and so no name twice.
   */
  ghost predicate EnvironmentSays(k: Key, spec: AgentSpec, subAgents: map<string, ResolvedSubAgent>,
                                  tools: map<string, ResolvedTool>, gatewayUrl: Option<string>, env: seq<EnvVar>) {
    && VariablesSay(k, spec, subAgents, tools, gatewayUrl, env, spec.env)
    && (forall i :: IsLastEntry(spec.env, i) ==> spec.env[i] in env)
    && (forall i, j :: 0 <= i < j < |env| ==> IsSmaller(env[i].name, env[j].name))
  }

  lemma OverlayGives(template: seq<EnvVar>, user: seq<EnvVar>, env: seq<EnvVar>, name: string, value: EnvValue)
    requires KeepsTemplate(template, user, env) && Gives(template, [], name, value)
    ensures Gives(env, user, name, value)
  {
  }

  lemma OverlayOmits(template: seq<EnvVar>, user: seq<EnvVar>, env: seq<EnvVar>, name: string)
    requires KeepsTemplate(template, user, env) && Omits(template, [], name)
    ensures Omits(env, user, name)
  {
    if name in Names(env) {
      var v :| v in env && v.name == name;
    }
  }

  lemma OverlayGivesSpec(k: Key, spec: AgentSpec, template: seq<EnvVar>, user: seq<EnvVar>, env: seq<EnvVar>)
    requires KeepsTemplate(template, user, env) && GivesSpec(k, spec, template, [])
    ensures GivesSpec(k, spec, env, user)
  {
    var s :| IsSanitizedForm(k.name, s) && Gives(template, [], "AGENT_NAME", Text(s));
    OverlayGives(template, user, env, "AGENT_NAME", Text(s));
    OverlayGives(template, user, env, "AGENT_DESCRIPTION", Text(spec.description));
    OverlayGives(template, user, env, "AGENT_INSTRUCTION", Text(spec.instruction));
    OverlayGives(template, user, env, "AGENT_MODEL", Text(spec.model));
    OverlayGives(template, user, env, "OTEL_SEMCONV_STABILITY_OPT_IN", Text("gen_ai_latest_experimental"));
    OverlayGives(template, user, env, "OTEL_SERVICE_NAME", Text(k.name));
  }

  lemma OverlayGivesRpcUrl(k: Key, spec: AgentSpec, template: seq<EnvVar>, user: seq<EnvVar>, env: seq<EnvVar>)
    requires KeepsTemplate(template, user, env) && GivesRpcUrl(k, spec, template, [])
    ensures GivesRpcUrl(k, spec, env, user)
  {
    if i :| IsFirstA2A(spec.protocols, i) {
      forall i | IsFirstA2A(spec.protocols, i)
        ensures exists url :: Addresses(url, k, spec.protocols[i].port, spec.protocols[i].path)
                              && Gives(env, user, "AGENT_A2A_RPC_URL", Text(url))
      {
        var url :| Addresses(url, k, spec.protocols[i].port, spec.protocols[i].path)
                   && Gives(template, [], "AGENT_A2A_RPC_URL", Text(url));
        OverlayGives(template, user, env, "AGENT_A2A_RPC_URL", Text(url));
      }
    } else {
      OverlayOmits(template, user, env, "AGENT_A2A_RPC_URL");
    }
  }

  lemma OverlayGivesGateway(k: Key, gatewayUrl: Option<string>, template: seq<EnvVar>, user: seq<EnvVar>, env: seq<EnvVar>)
    requires KeepsTemplate(template, user, env) && GivesGateway(k, gatewayUrl, template, [])
    ensures GivesGateway(k, gatewayUrl, env, user)
  {
    if gatewayUrl.Some? {
      OverlayGives(template, user, env, "LITELLM_PROXY_API_BASE", Text(gatewayUrl.value));
      OverlayGives(template, user, env, "LITELLM_PROXY_API_KEY", Text(k.namespace + "/" + k.name));
      OverlayGives(template, user, env, "USE_LITELLM_PROXY", Text("True"));
    } else {
      OverlayOmits(template, user, env, "LITELLM_PROXY_API_BASE");
      OverlayOmits(template, user, env, "LITELLM_PROXY_API_KEY");
      OverlayOmits(template, user, env, "USE_LITELLM_PROXY");
    }
  }

  lemma OverlayGivesDocuments(subAgents: map<string, ResolvedSubAgent>, tools: map<string, ResolvedTool>,
                              template: seq<EnvVar>, user: seq<EnvVar>, env: seq<EnvVar>)
    requires KeepsTemplate(template, user, env) && GivesDocuments(subAgents, tools, template, [])
    ensures GivesDocuments(subAgents, tools, env, user)
  {
    var doc :| IsDocument(subAgents, doc) && Gives(template, [], "SUB_AGENTS", SubAgentsJson(doc));
    OverlayGives(template, user, env, "SUB_AGENTS", SubAgentsJson(doc));
    OverlayGives(template, user, env, "AGENT_TOOLS", ToolsJson(tools));
  }

  lemma OverlaySays(k: Key, spec: AgentSpec, subAgents: map<string, ResolvedSubAgent>, tools: map<string, ResolvedTool>,
                    gatewayUrl: Option<string>, template: seq<EnvVar>, user: seq<EnvVar>, env: seq<EnvVar>)
    requires KeepsTemplate(template, user, env) && VariablesSay(k, spec, subAgents, tools, gatewayUrl, template, [])
    ensures VariablesSay(k, spec, subAgents, tools, gatewayUrl, env, user)
  {
    OverlayGivesSpec(k, spec, template, user, env);
    OverlayGivesRpcUrl(k, spec, template, user, env);
    OverlayGivesGateway(k, gatewayUrl, template, user, env);
    OverlayGivesDocuments(subAgents, tools, template, user, env);
    forall v | v in env
      ensures IsDerivedName(v.name) || v.name in Names(user)
    {
      if v.name in Names(template) {
        var t :| t in template && t.name == v.name;
      }
    }
  }

  /** Whatever order maps are ranged over in, the container's environment says what it should. */
  lemma ContainerEnvironmentSays(k: Key, spec: AgentSpec, subAgents: map<string, ResolvedSubAgent>,
                                 tools: map<string, ResolvedTool>, gatewayUrl: Option<string>, env: seq<EnvVar>)
    requires IsContainerEnvironment(k, spec, subAgents, tools, gatewayUrl, env)
    ensures EnvironmentSays(k, spec, subAgents, tools, gatewayUrl, env)
  {
    var template :| IsTemplate(k, spec, subAgents, tools, gatewayUrl, template) && IsMerge(template, spec.env, env);
    TemplateSays(k, spec, subAgents, tools, gatewayUrl, template);
    var doc :| IsDocument(subAgents, doc) && template == TemplateVars(k, spec, doc, tools, gatewayUrl);
    TemplateIsDistinct(k, spec, doc, tools, gatewayUrl);
    MergeIsOverlay(template, spec.env, env);
    OverlaySays(k, spec, subAgents, tools, gatewayUrl, template, spec.env, env);
  }
}
