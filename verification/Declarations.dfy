/**
  What an agent's spec declares, read off the spec alone: which agents it
  references, which remote agents and which tools it names.  The traversal and
  the resolvers are measured against this.
 */
module Declarations {
  import opened Api

  /** The reference means this resource; without a namespace it means one in the namespace it is used in. */
  predicate PointsTo(ref: ObjectReference, namespace: string, k: Key) {
    k.name == ref.name && k.namespace == (if ref.namespace == "" then namespace else ref.namespace)
  }

  /** The key that the controllers look up is the one that the reference means. */
  lemma LookedUpIsMeant(ref: ObjectReference, namespace: string, k: Key)
    ensures RefKey(ref, namespace) == k <==> PointsTo(ref, namespace, k)
  {
  }

  /** The agents that the sub-agents reference, existing or not. */
  function ReferencedAgents(namespace: string, spec: AgentSpec): set<Key> {
    set s | s in spec.subAgents && s.agentRef.Some? ::
      Key(if s.agentRef.value.namespace == "" then namespace else s.agentRef.value.namespace, s.agentRef.value.name)
  }

  lemma ReferencesAreMeant(namespace: string, spec: AgentSpec, k: Key)
    ensures k in ReferencedAgents(namespace, spec) <==>
              exists s <- spec.subAgents :: s.agentRef.Some? && PointsTo(s.agentRef.value, namespace, k)
  {
  }

  /** The agents that the entry points of a workforce mean; nil entries mean none. */
  function EntrySet(entries: seq<Option<ObjectReference>>, namespace: string): set<Key> {
    set e | e in entries && e.Some? :: Key(if e.value.namespace == "" then namespace else e.value.namespace, e.value.name)
  }

  /** A sub-agent of this name that has a URL and no reference. */
  predicate DeclaresRemote(spec: AgentSpec, name: string, url: string) {
    exists s <- spec.subAgents :: s.agentRef.None? && s.url != "" && s.name == name && s.url == url
  }

  function DeclaredUrls(spec: AgentSpec): set<string> {
    set s | s in spec.subAgents && s.agentRef.None? && s.url != "" :: s.url
  }

  /** The reference names something. */
  predicate Named(ref: Option<ObjectReference>) {
    ref.Some? && ref.value.name != ""
  }

  function NameText(ref: ObjectReference, namespace: string): string {
    (if ref.namespace == "" then namespace else ref.namespace) + "/" + ref.name
  }

  /** A tool goes by its route; without one by its server; without either by its external URL. */
  function DeclaredTools(namespace: string, spec: AgentSpec): set<string> {
    (set t | t in spec.tools && Named(t.upstream.toolRouteRef) ::
       "toolroute:" + NameText(t.upstream.toolRouteRef.value, namespace))
    + (set t | t in spec.tools && !Named(t.upstream.toolRouteRef) && Named(t.upstream.toolServerRef) ::
         "toolserver:" + NameText(t.upstream.toolServerRef.value, namespace))
    + (set t | t in spec.tools && !Named(t.upstream.toolRouteRef) && !Named(t.upstream.toolServerRef)
               && t.upstream.external.Some? && t.upstream.external.value != "" ::
         "external:" + t.upstream.external.value)
  }
}
