# Verified model of the agent runtime operator

This project models the reconciliation logic of the agent runtime operator and
proves properties of it in Dafny. `dafny verify dfyconfig.toml` checks all of it.

## What is modelled

* **What specs declare** (`Declarations`) and what the world has for an agent
  (`WorldFacts`), read off specs and statuses alone. The results about what is listed,
  resolved, published and deployed are stated in these terms.
* **Workforce discovery** (`Keys`, `Admission`, `Discovery`, `DiscoveryTheorems`,
  `DiscoveryLaws`, `Workforces`, `Traversal`). The traversal of the sub-agent graph
  with its two shared maps keyed by strings, the collection of its result, the
  validation of entry points, and the watch that uses the stored result as an index.
  `Reach` says declaratively what is reachable; `Drain` is the traversal as a
  worklist; the class `AgentTraversal` is the recursive form.
* **The workforce controller as a protocol** (`WorkforceProtocol`). Reconciles read
  one agent at a time while agents and workforces change between the reads.
* **Agent resolution and its watches** (`Resolution`, `AgentResolvers`, `ResolutionFacts`,
  `AgentUrls`). The look-ups of configuration, sub-agents, tools and gateway, and the five
  watches.
* **The agent controller as a protocol** (`AgentProtocol`, `ReadinessSafety`) and one
  reconcile of it in place, from look-up to status (`AgentController`), with what it
  delivers (`Delivery`).
* **Readiness as a fixpoint** (`Readiness`, `ReadinessRecovery`, `ReadinessConvergence`,
  `ReadinessProgress`, `ReconcileRuns`, `ReadyWorkforces`). Who may publish a URL, who ever
  does, where reconciling comes to rest from which statuses, how whole reconciles and runs
  of the protocol relate, and what that means for a workforce.
* **The desired state** (`AgentConfig`, `AgentEnvironment`, `Deployment`,
  `AgentDeployment`). The environment merge, the SUB_AGENTS document, and the
  mutation of Deployment and Service.
* **Mount validation** (`Paths`, `Mounts`).

`Api` holds the resources, `Collections` a few facts about finite sets.

### The rules of the environment

* The work queue is a set. A key that is enqueued while it is in flight stays
  queued, and one key has at most one reconcile in flight.
* A cache update and the call of the watch's mapper are one step. `List` succeeds;
  `Get` answers found or not found.
* A status write that changes nothing emits no event. One that changes something
  enqueues the object itself, because the controllers watch their own resource without
  a predicate, and whatever the other watches map it to. A write on an object whose
  spec has changed since it was read conflicts and fails. A failed write re-queues.
* Reconciles may be enqueued at any other time as well (resync, retry after a delay).
  The retry of an agent whose look-ups fail is such a step: the theorems do not need it.
* When the manager starts, every existing object is queued, with whatever status it has.
* Existing agents have the names that section 2.1 of RFC 1123 allows: not empty, without
  slash. Their specs have passed the admission webhook. References are arbitrary text.
* The order in which maps are ranged over is arbitrary; lists that come from it are
  described up to their order.
* A list comes in any order, and in another one each time. So when no gateway is named and
  the default namespace holds several, every look-up may pick another one.

### Where the code does less than its documentation or its tests suggest

* The nesting test of mount paths does not see that a mount at the root (or at the
  working directory) holds the others. `TestFindsNestingBelowTop` and `AcceptedIff` give
  the exact condition, `RootMountIsMissed` an accepted list.
* A comment promises a consistent order of the discovered agents and tools; ranging over
  maps gives one only when there is nothing to order. `OrderIsConsistentIff` is exact.
* Sub-agents are lost between spec and SUB_AGENTS: of two with one name the first, of two
  whose names sanitize to one identifier the one that map order decides. Nothing rejects
  either. `DeclaredSubAgentsAreConservedIff` and `DeclarationsSurviveIff` give the exact
  conditions, `EqualNamesCollide` and `SanitizedNamesCanCollide` an input for each;
  `DocumentIsDeterminedIff` says when map order plays no part.
* From a cluster that once had other specs, agents that reference each other in a cycle
  can keep each other up. `ReconcilingRecoversIff` gives the exact condition on the statuses
  at the start, `ReconcilingRecovers` and `QuietFixedRunIsLeast` one that is easy to check,
  `ACycleCanKeepItselfUp` a run.
* Malformed references can share a key of the traversal with each other or with the URL of
  a remote agent; then one of them has no entry. `EntriesAreKeptIffStringsAreApart` gives
  the exact condition, `MalformedReferencesCanCollide` an example. No existing agent is ever
  affected (`EntryIffReachable`).

## Model

| member | source | states |
|---|---|---|
| `WorkforceProtocol.NoLostUpdate` | internal/controller/agenticworkforce_reconciler.go:51-106 | In every run that interleaves agent and workforce changes with the single reads of reconciles, a workforce neither queued nor in flight has a status that says what the specs in the cluster declare now: every possible agent reachable from the entry points and nothing unreachable, exactly the declared URLs, each once under a declared name, exactly the declared tools, the missing entry points by name and in order, ready iff there are none |
| `WorkforceProtocol.NextKeepsInv` | internal/controller/agenticworkforce_reconciler.go:341-350 | Every step of the protocol keeps: an unqueued workforce is exact, or its reconcile in flight is on track |
| `WorkforceProtocol.AgentChangeKeepsSettled` | internal/controller/agenticworkforce_reconciler.go:268-338 | An agent change that the watch does not map to a workforce keeps it settled, at rest or half way through a reconcile |
| `WorkforceProtocol.TraverseStaysOnTrack` | internal/controller/agenticworkforce_reconciler.go:187-205 | Marking before fetching means each agent is read at most once, so a traversal under interleaved changes is the traversal of one cluster that gives the same answers |
| `WorkforceProtocol.UnchangedWriteIsExact` | internal/controller/agenticworkforce_reconciler.go:92-99 | A status write that changes nothing was computed only from answers that are still true, so the status is exact |
| `Workforces.IndexIsReachability` | internal/controller/agenticworkforce_reconciler.go:285-335 | With an exact status the watch maps an agent to a workforce iff the agent is reachable from its entry points |
| `Workforces.IndexSoundness` | internal/controller/agenticworkforce_reconciler.go:268-338 | If the watch does not map a changed agent to a workforce with an exact status, discovery and entry-point validation are identical before and after |
| `Workforces.NothingMissing` | internal/controller/agenticworkforce_reconciler.go:109-143 | No entry point is reported missing iff all of them exist |
| `Workforces.ExactListing` | internal/controller/agenticworkforce_reconciler.go:146-181 | An exact list of agents holds the reachable agents, nothing else, and each declared URL once |
| `Workforces.ExactStatusSays` | internal/controller/agenticworkforce_reconciler.go:51-106 | An exact status says, in terms of entry points and specs alone: reachable agents, declared remote agents and tools, missing entry points |
| `Workforces.MissingAreNamed` | internal/controller/agenticworkforce_reconciler.go:109-143 | The list of missing entry points names exactly those without an agent, in order and with repetitions |
| `Workforces.OrderIsConsistentIff` | internal/controller/agenticworkforce_reconciler.go:169-178 | The order of each list is the same for every order of ranging over the maps iff there is at most one entry to list |
| `DiscoveryTheorems.DiscoverExact` | internal/controller/agenticworkforce_reconciler.go:146-265 | On any graph, cyclic or not, the strings found are exactly those of the least set of references closed under what specs declare, plus the URLs that its agents' specs declare; the entries with a URL are exactly those URLs, also where a malformed reference has the same string; tools are exactly those its agents' specs declare; each entry is explained by an agent or a declaration |
| `DiscoveryTheorems.DrainConcat` | internal/controller/agenticworkforce_reconciler.go:243-262 | Doing work items one list after the other is doing their concatenation: the recursion and the worklist agree |
| `DiscoveryTheorems.DrainFrame` | internal/controller/agenticworkforce_reconciler.go:184-213 | A traversal that does not mark an agent cannot tell clusters apart that differ only in it |
| `DiscoveryTheorems.DrainMarksFaithfully` | internal/controller/agenticworkforce_reconciler.go:193-198 | Whatever else is recorded, the string of an existing agent is only ever marked with its own name and namespace |
| `Discovery.ExpansionShrinksPending` | internal/controller/agenticworkforce_reconciler.go:189-205 | Each expansion strictly shrinks the references not yet marked: the traversal terminates on every finite cluster |
| `Discovery.ReachIsLeast` | internal/controller/agenticworkforce_reconciler.go:243-253 | The reachable set holds the entry points, is closed under references of existing agents, and is the least such set |
| `Discovery.WorkIsDeclared` | internal/controller/agenticworkforce_reconciler.go:215-262 | What the traversal does with an agent is read off its spec: it visits exactly the referenced agents, records exactly the named URLs of sub-agents without a reference, and collects exactly the declared tools |
| `Declarations.LookedUpIsMeant` | internal/controller/util.go:36-45 | A reference is looked up under its own name, in its own namespace or else in the one it is used in |
| `DiscoveryLaws.EntryIffReachable` | internal/controller/agenticworkforce_reconciler.go:184-198 | An existing or possible agent has its entry iff it is reachable |
| `DiscoveryLaws.LastDeclarationNamesTheRemote` | internal/controller/agenticworkforce_reconciler.go:254-260 | Of several declarations of one URL the last in the order of the traversal gives the remote agent its name |
| `DiscoveryLaws.EntriesAreKeptIffStringsAreApart` | internal/controller/agenticworkforce_reconciler.go:187-198 | On any graph, each reachable reference, missing ones included, has its own entry iff no two reachable references share a string and none has the string of a declared URL |
| `DiscoveryLaws.PlainReferencesKeepTheirEntries` | internal/controller/agenticworkforce_reconciler.go:187-198 | So it is, in particular, when every reachable reference has a namespace without slash and colon |
| `DiscoveryLaws.MalformedReferencesCanCollide` | internal/controller/agenticworkforce_reconciler.go:187-192 | Concrete malformed references of which the second is reachable and gets no entry |
| `DiscoveryLaws.DiscoveryDependsOnTheEntrySet` | internal/controller/agenticworkforce_reconciler.go:153-167 | Permuting, repeating or adding nil entry points changes no set that discovery finds |
| `DiscoveryLaws.DiscoveryOfConcatenation` | internal/controller/agenticworkforce_reconciler.go:149-167 | Discovery on concatenated entry lists finds the union of the separate discoveries |
| `Keys.KeyStringInjective` | internal/controller/agenticworkforce_reconciler.go:187 | ns/name strings are injective on slash-free namespaces |
| `Keys.ValidKeyStringUnique` | internal/controller/agenticworkforce_reconciler.go:187-192 | The string of an existing agent is the string of no other reference, however malformed |
| `Keys.UrlIsNotAKey` | internal/controller/agenticworkforce_reconciler.go:254-260 | The URL key of a remote agent is never the key of an existing agent |
| `Keys.HttpUrlIffParts` | internal/webhook/v1alpha1/agent_webhook.go:254-274 | The URLs accepted are exactly those with scheme http or https in any case, and an authority whose host, after the last at sign, is not empty |
| `Keys.ToolKeyStringInjective` | internal/controller/agenticworkforce_reconciler.go:216-240 | toolroute:, toolserver: and external: keys are jointly injective |
| `Traversal.AgentTraversal.TraverseAgent` | internal/controller/agenticworkforce_reconciler.go:184-265 | The recursive traversal over the shared maps does what the worklist does, from any earlier findings, and terminates; what it does with one agent is what the spec declares (WorkIsDeclared) |
| `Traversal.AgentTraversal.CollectTools` | internal/controller/agenticworkforce_reconciler.go:215-241 | Adds exactly the identities of the agent's tools that have a valid upstream |
| `Traversal.CollectTransitiveAgentsAndTools` | internal/controller/agenticworkforce_reconciler.go:146-181 | The slices list each entry and each tool of the discovery exactly once, in some order |
| `Traversal.ValidateEntryPointAgents` | internal/controller/agenticworkforce_reconciler.go:109-143 | Names exactly the entry points that mean no existing agent, in order; ready iff every entry point that is not nil exists |
| `Traversal.FindWorkforcesReferencingAgent` | internal/controller/agenticworkforce_reconciler.go:268-338 | Requests each workforce that has the agent as entry point or in its stored status, exactly once |
| `Traversal.WorkforceResource.Reconcile` | internal/controller/agenticworkforce_reconciler.go:51-106 | A reconcile without interleaving leaves a status that says what the specs declare, whatever the status was |
| `Admission.AcceptedSubAgentIsOneKind` | internal/webhook/v1alpha1/agent_webhook.go:191-274 | A sub-agent is admitted iff it is one named reference or one http(s) URL with a host, and not both |
| `Admission.AcceptedToolsAreNamed` | internal/webhook/v1alpha1/agent_webhook.go:229-250 | A tool is admitted iff the route and server references it has name something |
| `Resolution.LookupFrame` | internal/controller/agent_reconciler.go:381-408 | A look-up may have the same answers before and after a change that the watch does not map to the agent |
| `Resolution.WatchesComplete` | internal/controller/agent_reconciler.go:381-408 | If one agent, route, server, gateway or configuration changes and an agent may resolve differently, the matching watch wakes that agent |
| `Resolution.OnlyTheGatewayIsFree` | internal/controller/agent_aigateway.go:82-110 | Two resolutions of one world differ at most in the gateway that was first in the list, and not at all when one is named or there is at most one default gateway |
| `WorldFacts.ResolvedUrlIsGiven` | internal/controller/agent_subagent.go:69-99 | A sub-agent resolves to a URL iff the spec declares it, or declares none and the referenced agent has published it |
| `WorldFacts.ResolvedToolUrlIsGiven` | internal/controller/agent_tool.go:63-112 | A tool resolves to a URL iff its route, else its server, has it as status URL, else it is the external URL trimmed |
| `WorldFacts.TrimmedIffTrim` | internal/controller/agent_tool.go:71-76 | Trimming takes off exactly the Unicode white space at both ends |
| `WorldFacts.ResolvedConfigIs` | internal/controller/agent_reconciler.go:479-511 | The configuration found is the only one of the operator's namespace, or none if there is none; several, or no operator namespace, are an error |
| `WorldFacts.FoundGatewayIs` | internal/controller/agent_aigateway.go:46-106 | A gateway found is the one that the reference means, or one of the default namespace; none only without a reference and with that namespace empty |
| `WorldFacts.WatchesAreExact` | internal/controller/agent_subagent.go:102-143 | Each watch wakes exactly the agents whose spec refers to the changed resource, or that may use it as default gateway or configuration |
| `ResolutionFacts.ResolvesIffServed` | internal/controller/agent_reconciler.go:123-146 | An agent resolves iff configuration, all URLs, gateway and the interaction types of last declarations are there, and then to exactly what specs and statuses say |
| `AgentResolvers.ResolveAllSubAgents` | internal/controller/agent_subagent.go:42-63 | Each name with the last declaration that has a URL: the declared one, or the non-empty status URL of the agent that the reference means; and the names of all others, in order |
| `AgentResolvers.SubAgentMapKeepsLast` | internal/controller/agent_subagent.go:46-56 | A name is resolved iff some declaration of it was, and has what the last such declaration gives |
| `AgentResolvers.ResolveAllTools` | internal/controller/agent_tool.go:40-60 | Each name with the last declaration that has a URL: the route's status URL, else the server's, else the external URL without white space around it; and the names of all others, in order |
| `AgentResolvers.ToolMapKeepsLast` | internal/controller/agent_tool.go:44-54 | A tool name is resolved iff some declaration of it was, with the URL and headers of the last one |
| `AgentResolvers.WokenOnce` | internal/controller/agent_subagent.go:115-142 | The requests of each watch hold every woken agent exactly once |
| `AgentResolvers.FindAgentsReferencingSubAgent` | internal/controller/agent_subagent.go:102-143 | Requests, in list order, exactly the agents with a reference to the changed agent, each once |
| `AgentResolvers.FindAgentsReferencingToolRoute` | internal/controller/agent_tool.go:115-149 | Requests exactly the agents whose tools reference the changed route |
| `AgentResolvers.FindAgentsReferencingToolServer` | internal/controller/agent_tool.go:152-186 | Requests exactly the agents whose tools reference the changed server |
| `AgentResolvers.FindAgentsReferencingAiGateway` | internal/controller/agent_aigateway.go:120-182 | Requests exactly the agents that name the changed gateway, or name none while it is in the default namespace |
| `AgentResolvers.FindAllAgentsForRuntimeConfiguration` | internal/controller/agent_reconciler.go:418-440 | Requests every agent |
| `AgentController.GetAgentRuntimeConfiguration` | internal/controller/agent_reconciler.go:479-511 | None, one or an error, by the number of configurations in the operator namespace |
| `AgentController.ResolveGateway` | internal/controller/agent_aigateway.go:46-110 | The named gateway or an error; without a name the one the list begins with, in whatever order it came, or none, which is no error |
| `AgentController.StagesDecide` | internal/controller/agent_reconciler.go:123-146 | All stages of look-ups succeed iff no single answer is a failure |
| `AgentController.EnsureService` | internal/controller/agent_reconciler.go:300-375 | The Service is deleted without protocols, else changed or created with the agent's selector |
| `AgentController.AgentResource.LookUp` | internal/controller/agent_reconciler.go:123-146 | Stage by stage with early exit, the look-ups find one of the things the world resolves to, with the first gateway of the list |
| `AgentController.AgentResource.ReconcileAgent` | internal/controller/agent_reconciler.go:123-161 | A failed resolution changes nothing; a successful one leaves Deployment and Service mutated with a right environment |
| `AgentController.AgentResource.Reconcile` | internal/controller/agent_reconciler.go:80-117 | The reconcile delivers (ReconcileDelivers): an agent that can be served is ready with Deployment, Service and a URL that leads to its probed card; one that cannot is not ready and its objects are as they were |
| `Delivery.ReconcileDelivers` | internal/controller/agent_reconciler.go:80-161 | Over world, spec and objects alone: ready iff it can be served; the agent container has image, ports, environment, mounts, probe and resources that the spec and its resolution ask for, the Service a port for each protocol, the status the gateway and the URL |
| `Delivery.PublishedUrlLeads` | internal/controller/agent_status.go:31-64 | The published URL has the agent's host, a port that the Service left behind has, written so that it reads back, and the path that the agent container left behind is probed at |
| `Delivery.DocumentHoldsSubAgents` | internal/controller/agent_config.go:125-145 | SUB_AGENTS holds each declared sub-agent under its sanitized name with the URL it has in the world and its interaction type, and nothing else |
| `AgentController.AgentResource.UpdateAgentStatusReady` | internal/controller/agent_status.go:31-64 | Card URL, gateway reference and ready condition, whatever was there before |
| `AgentController.AgentResource.UpdateAgentStatusNotReady` | internal/controller/agent_status.go:66-91 | URL and gateway reference are cleared and the condition is false |
| `AgentProtocol.NoLostWakeUp` | internal/controller/agent_reconciler.go:80-161 | In every run, with changes between single look-ups and failing writes, an agent neither queued nor in flight has the status and the deployment that its spec and a resolution of the world as it is now call for; with several default gateways the choice may be any |
| `Delivery.IdleAgentsAreAsTheWorldSays` | internal/controller/agent_reconciler.go:80-161 | The same read off specs and statuses alone: such an agent is ready iff it can be served now, with the URL, the gateway and the deployment that it is to be served with, and otherwise not ready |
| `AgentProtocol.NoLookUpAfterAFailedStage` | internal/controller/agent_reconciler.go:123-146 | In every run a reconcile makes no look-up once a stage of its look-ups, configuration, sub-agents or tools, has failed |
| `AgentProtocol.NextKeepsInv` | internal/controller/agent_reconciler.go:377-414 | Every step keeps: an unqueued agent is up to date, or its reconcile in flight has only true answers |
| `AgentProtocol.TrueAnswersDecide` | internal/controller/agent_reconciler.go:130-146 | Answers that are all true make the outcome one that the world resolves to, also when the reconcile gave up early |
| `ReadinessSafety.OnlyLeastPublishes` | internal/controller/agent_subagent.go:69-99 | From a URL-free cluster with fixed specs, in every run only agents of the least fixpoint ever have a status URL |
| `ReadinessSafety.CyclicAgentsNeverPublish` | internal/controller/agent_subagent.go:83-98 | So an agent on or above a cycle of references never has one |
| `ReadinessSafety.ReadyIsSupported` | internal/controller/agent_reconciler.go:130-160 | A reconcile that ends ready was supported by the agents its answers came from |
| `Readiness.LeastIsFixpoint` | internal/controller/agent_subagent.go:69-99 | The least set closed under the readiness rule holds exactly the agents it supports |
| `Readiness.CyclesNeverComeUp` | internal/controller/agent_subagent.go:83-98 | No agent on a path of references that comes back to itself is in the least fixpoint |
| `Readiness.LeastIffEveryPathIsSound` | internal/controller/agent_subagent.go:69-99 | An agent is in the least fixpoint iff every path of references from it meets only existing, able agents with specified sub-agents and never comes back |
| `Readiness.ChangesAreBounded` | internal/controller/agent_status.go:36-36 | By the rule of readiness, from a consistent set of agents that are up, the changes are exactly as many as agents came up |
| `Readiness.RoundsReachLeast` | internal/controller/agent_reconciler.go:377-393 | By the rule of readiness, from no agent up, as many rounds as agents, each in any order, reach exactly the least fixpoint |
| `Readiness.StableIsLeastIffNoCycleIsUp` | internal/controller/agent_subagent.go:93-98 | A stable set of agents that are up is the least fixpoint iff it holds no cycle |
| `Readiness.AcyclicHasOneStableState` | internal/controller/agent_subagent.go:69-99 | With acyclic references the stable state is unique |
| `Readiness.CycleKeepsItselfUp` | internal/controller/agent_subagent.go:93-98 | By the rule of readiness, two agents that reference each other have two stable states, both up and both down |
| `ReadinessRecovery.RestIsBetween` | internal/controller/agent_subagent.go:69-99 | From any starting set and in any order, where reconciling comes to rest lies between the least fixpoint and the greatest self-supporting part of what the start can bring up |
| `ReadinessRecovery.RecoversIff` | internal/controller/agent_subagent.go:69-99 | From any starting set: every rest state, and the end of any schedule of as many rounds as agents, is the least fixpoint iff the agents that can remain up, computed from the start, form no cycle |
| `ReadinessRecovery.RecoversWithoutCyclesAtStart` | internal/controller/agent_subagent.go:93-98 | So it is whenever no agent that is up at the start lies on a cycle of references |
| `ReadinessConvergence.PublishesIffSupported` | internal/controller/agent_reconciler.go:97-112 | A whole reconcile publishes a URL iff the readiness rule supports the agent, whatever gateway it finds |
| `ReadinessConvergence.UrlsAreNeverCleared` | internal/controller/agent_status.go:70-74 | With a fixed environment and from a URL-free cluster, whole reconciles in any order never take back or change a published URL |
| `ReadinessConvergence.ReconcilingReachesLeast` | internal/controller/agent_reconciler.go:80-117 | Wherever reconciling comes to rest, and after as many rounds as agents, exactly the least fixpoint of the able agents has a URL |
| `ReadinessConvergence.ReconcilingRecoversIff` | internal/controller/agent_reconciler.go:80-117 | From any starting statuses, whole reconciles only come to rest in the least fixpoint, and reach it in as many rounds as agents, iff the agents that can remain up, computed from the statuses at the start, form no cycle |
| `ReadinessConvergence.ReconcilingRecovers` | internal/controller/agent_reconciler.go:80-117 | Both hold when no agent that has a URL at the start lies on a cycle of references |
| `ReadinessConvergence.RestIsLeastIffNoCycleIsUp` | internal/controller/agent_subagent.go:93-98 | A cluster at rest publishes the least fixpoint iff the agents with a URL form no cycle |
| `ReadinessConvergence.QuietRunIsLeast` | internal/controller/agent_reconciler.go:377-414 | At the end of any run that has become quiet the published URLs are the least fixpoint for the world as it is then, iff no cycle is up |
| `ReadinessProgress.PublishedUrlsStay` | internal/controller/agent_status.go:31-91 | In every run from a URL-free cluster, with overlapping reconciles, while nothing else changes and nothing fails, a published URL stays and stays the same |
| `ReadinessProgress.UrlChangesAtMostOnce` | internal/controller/agent_status.go:36-74 | So the URL of each agent is empty up to some step and its card URL from there on: at most one change per agent |
| `ReadinessProgress.OnlyClosurePublishes` | internal/controller/agent_subagent.go:69-99 | From any statuses, while specs stay, only agents that those up at the start can bring up ever have a URL, in every run |
| `ReadinessProgress.QuietFixedRunIsLeast` | internal/controller/agent_reconciler.go:377-414 | In every run with fixed specs, with failures and changes of tools, gateways and configurations: a cluster that has become quiet has published exactly the least fixpoint of the agents able by then, if no agent with a URL at the start lies on a cycle |
| `ReconcileRuns.HistoryAsRun` | internal/controller/agent_reconciler.go:80-161 | Every history of whole reconciles is what some run of the protocol, look-up by look-up, does to the world |
| `ReconcileRuns.SomeRunKeepsWhatCanRemain` | internal/controller/agent_reconciler.go:80-161 | From every world some run comes to rest with everything up that can remain up: the bound is reached |
| `ReconcileRuns.ACycleCanKeepItselfUp` | internal/controller/agent_subagent.go:93-98 | A run from a URL-free cluster with one edit of a spec, after which two agents that reference each other stay up in a quiet cluster, though the least fixpoint is empty |
| `ReadyWorkforces.ChildrenAreDependencies` | internal/controller/agent_subagent.go:70-81 | For admitted specs the traversal and the resolver follow the same references, though they prefer different fields |
| `ReadyWorkforces.ReadyReachesOnlyReady` | internal/controller/agenticworkforce_reconciler.go:243-253 | Whatever is reachable from ready agents exists and is ready |
| `ReadyWorkforces.ReadyWorkforceListsReadyAgents` | internal/controller/agenticworkforce_reconciler.go:169-173 | A workforce whose entry points are in the least fixpoint lists only cluster agents that are |
| `ReadyWorkforces.QuietWorkforceListsServedAgents` | internal/controller/agenticworkforce_reconciler.go:51-106 | In runs of both controllers on one cluster, once the agents are quiet, an idle workforce is ready and lists only cluster agents that have a URL iff all its entry points have one |
| `AgentUrls.CardUrlIffA2A` | internal/controller/agent_config.go:282-304 | An agent has a card URL and an RPC URL iff it speaks A2A |
| `AgentUrls.UrlsAddressTheFirstA2A` | internal/controller/agent_config.go:279-304 | RPC and card URL have name and namespace of the agent as host, the port of the first A2A protocol, its path, and the card's endpoint; without one both are empty |
| `AgentUrls.WrittenNumber` | internal/controller/agent_config.go:299 | The port is written in digits that read back as it |
| `AgentConfig.MergeEnvironmentVariables` | internal/controller/agent_config.go:204-237 | Ascending by name, over the names of both lists; with distinct template names, the merge and the overlay, for every order of ranging over the map |
| `AgentConfig.MergeIsUnique` | internal/controller/agent_config.go:226-236 | There is one strictly ascending list that takes the last user entry, else the template's: the merge is canonical |
| `AgentConfig.MergeIsOverlay` | internal/controller/agent_config.go:204-237 | By places and code points: the last user entry of every name, each template entry the user has no entry for, no other names, in the order of code points |
| `AgentConfig.MergeIsIdempotent` | internal/controller/agent_config.go:204-237 | Merging the result again with the same user list gives it back |
| `AgentConfig.OverrideTemplate` | internal/controller/agent_config.go:214-224 | Each template name keeps its place, with the user's entry if there is one; what is left of the map is the rest of the user's names |
| `AgentEnvironment.SanitizeAgentName` | internal/controller/agent_config.go:242-277 | Keeps letters, digits and underscores, makes everything else an underscore, puts one before a leading digit, and gives a legal identifier |
| `AgentEnvironment.SanitizedIffIdentifier` | internal/controller/agent_config.go:239-277 | Leaves exactly the legal identifiers alone; doing it twice is doing it once |
| `AgentEnvironment.BuildSubAgentsDocument` | internal/controller/agent_config.go:125-145 | Fails iff an interaction type is missing; else each sanitized name has the entry of one of its owners |
| `AgentEnvironment.DocumentConservesIffInjective` | internal/controller/agent_config.go:127-138 | Of the resolved map no sub-agent is lost iff no two names sanitize to one, and then each keeps its own entry |
| `AgentEnvironment.DocumentIsDeterminedIff` | internal/controller/agent_config.go:129-138 | The document is independent of map order iff names that collide have the same entry |
| `AgentEnvironment.DeclaredSubAgentsAreConservedIff` | internal/controller/agent_subagent.go:42-63 | From spec to document, for resolved sub-agents: as many entries as declarations iff no two declarations have names that are equal or sanitize to one; then each is there with its URL and interaction type |
| `AgentEnvironment.DeclarationsSurviveIff` | internal/controller/agent_config.go:125-138 | Every declaration has its own entry in every document iff declarations whose names sanitize to one ask for the same |
| `AgentEnvironment.SanitizedNamesCanCollide` | internal/controller/agent_config.go:129-138 | Admitted sub-agents a-b and a_b: two possible documents, each without one of them |
| `AgentEnvironment.EqualNamesCollide` | internal/controller/agent_subagent.go:46-56 | Two admitted sub-agents with one name: the first is lost in every document |
| `AgentEnvironment.TemplateIsDistinct` | internal/controller/agent_config.go:57-179 | No two derived variables share a name, whatever the agent |
| `AgentEnvironment.TemplateSays` | internal/controller/agent_config.go:57-179 | By name: each derived variable has the value that its own field of spec, resolution or gateway gives; the conditional ones are there iff there is an A2A protocol, or a gateway; there are no others |
| `AgentEnvironment.BuildTemplateEnvironmentVars` | internal/controller/agent_config.go:57-179 | The derived variables with the value of each by name; fails iff an interaction type is missing |
| `AgentEnvironment.ContainerEnvironment` | internal/controller/agent_reconciler.go:216-222 | The container environment has each derived variable with its value by name unless the user has an entry, the last entry of each name the user has, and nothing else |
| `AgentEnvironment.ContainerEnvironmentSays` | internal/controller/agent_reconciler.go:216-222 | The same of every environment that some order of ranging over maps gives |
| `AgentEnvironment.EnvironmentIsDetermined` | internal/controller/agent_config.go:204-237 | The whole environment does not depend on any map order when colliding names agree |
| `Deployment.DeploymentObject.Mutate` | internal/controller/agent_reconciler.go:188-284 | The in-place mutation gives the specified state |
| `Deployment.DeploymentObject.UpdateAgentContainer` | internal/controller/agent_reconciler.go:255-277 | Finds the first agent container or appends one, and sets its fields where it stands; UpdatedHas says to what |
| `Deployment.UpdatedHas` | internal/controller/agent_reconciler.go:255-277 | The first container named agent has the image, ports, environment, sources, mounts, probe and resources that were computed |
| `Deployment.MutatedHas` | internal/controller/agent_reconciler.go:188-284 | After the mutation: that container, the volumes, the replicas, the selector, and label by label the metadata of Deployment and pods |
| `Deployment.MutatedServiceHas` | internal/controller/agent_reconciler.go:326-358 | After the mutation: the Service's ports, selector, and label by label its metadata |
| `Deployment.DeploymentObject.FindContainerByName` | internal/controller/util.go:26-33 | The first container of that name, or none |
| `Deployment.DeploymentObject.ApplyCommonMetadata` | internal/controller/util.go:47-63 | Overlays labels and annotations |
| `Deployment.ServiceObject.Mutate` | internal/controller/agent_reconciler.go:326-358 | The in-place mutation of the Service gives the specified state |
| `Deployment.PodLabelPrecedence` | internal/controller/util.go:69-95 | A pod label is the selector's, else the pod metadata's, else the common metadata's, and there are no others |
| `Deployment.MutationIsIdempotent` | internal/controller/agent_reconciler.go:188-284 | Mutating twice with the same input is mutating once, for new and existing Deployments |
| `Deployment.MutationFrame` | internal/controller/agent_reconciler.go:248-277 | Only the first agent container changes, and only in the operator's fields; at most one is appended; selector and unmanaged labels stay |
| `Deployment.ServiceMutationIsIdempotent` | internal/controller/agent_reconciler.go:326-358 | Mutating the Service twice is mutating it once |
| `Deployment.SelectorsNeverDrift` | internal/controller/agent_reconciler.go:195-238 | In every history of reconciles with arbitrary metadata and of edits, the Deployment keeps its selector, its template carries it, and after each reconcile the Service selects the same |
| `AgentDeployment.AdmittedAgentsHaveARealImage` | internal/controller/agent_reconciler.go:526-564 | An admitted agent never runs the fallback image of the operator |
| `AgentDeployment.FallbackRunsIff` | internal/controller/agent_reconciler.go:553-563 | Otherwise the fallback image runs iff the effective framework has no template |
| `AgentDeployment.EnsureDeployment` | internal/controller/agent_reconciler.go:164-297 | Creates or mutates the Deployment with a right environment; fails iff an interaction type is missing |
| `AgentDeployment.InputIsRight` | internal/controller/agent_reconciler.go:203-275 | Framework, image, ports and probe are those of the spec, else of the configuration, else the built-in ones, case by case |
| `AgentDeployment.DeploymentServesAgent` | internal/controller/agent_reconciler.go:164-297 | The Deployment after a reconcile runs what the spec describes with what it was resolved to, whatever was there before |
| `AgentDeployment.ServiceServesAgent` | internal/controller/agent_reconciler.go:326-358 | So does the Service: one port for each protocol, the selector of the pods, and the metadata |
| `AgentDeployment.ReconcilingAgainChangesNothing` | internal/controller/agent_reconciler.go:188-284 | A second reconcile with the same resolution leaves the Deployment as it is, whatever the map orders, when colliding names agree |
| `Paths.PrefixTestIsExact` | internal/webhook/v1alpha1/agent_webhook.go:334-349 | For all paths, the slash-terminated prefix test on cleaned paths holds iff one component list begins the other, except under the root |
| `Paths.CleanIsIdempotent` | internal/webhook/v1alpha1/agent_webhook.go:334-335 | Cleaning a cleaned path changes nothing, and reading it gives back its components |
| `Paths.ComponentsLeadThere` | internal/webhook/v1alpha1/agent_webhook.go:334-335 | A path leads where its components lead, from every working directory; from the root the components are the directory itself |
| `Mounts.TestFindsNestingBelowTop` | internal/webhook/v1alpha1/agent_webhook.go:337-349 | The webhook's test finds a pair iff it is nested and the outer mount is not at the top |
| `Mounts.NestingIsOneWay` | internal/webhook/v1alpha1/agent_webhook.go:344-349 | The two branches exclude each other |
| `Mounts.NestingIsOfDirectories` | internal/webhook/v1alpha1/agent_webhook.go:337-349 | For absolute paths nesting is that of the directories the paths lead to |
| `Mounts.ValidateVolumeMounts` | internal/webhook/v1alpha1/agent_webhook.go:308-360 | Reports each mount without volume and each nested pair exactly once, and nothing else |
| `Mounts.AcceptedIff` | internal/webhook/v1alpha1/agent_webhook.go:308-360 | Accepted iff every mount names a declared volume and no mount is nested under another that is not at the top |
| `Mounts.AcceptanceDependsOnTheSet` | internal/webhook/v1alpha1/agent_webhook.go:318-357 | Order and repetition of mounts do not change acceptance |
| `Mounts.ErrorCountIgnoresOrder` | internal/webhook/v1alpha1/agent_webhook.go:327-355 | The number of nesting errors is the same for every order of the mounts |
| `Mounts.RootMountIsMissed` | internal/webhook/v1alpha1/agent_webhook.go:342-344 | A list with a mount at the root and one below it is nested, and accepted |

## Left out

* The Kubernetes client, informer caches, `CreateOrUpdate`, conflict retries, owner
  references and event recording: replaced by the rules above.
* Errors of `Get` other than not-found, which the traversal logs and skips: a status
  computed through one would be stale without a queue entry.
* The order of `transitiveAgents` and `transitiveTools`, and any bound on how often a
  workforce re-enqueues itself because that order changed.
* Condition messages, transition times and observed generations, except the list of
  missing agents; a write that changes only those would be one more wake-up.
* JSON text of `SUB_AGENTS` and `AGENT_TOOLS`: kept as the maps it encodes.
* `url.Parse`, but for scheme and host. The path cleaning of the standard library is
  modelled by its documented rules.
* The library sort: any permutation that ascends by name; the insertion sort in the
  model stands for it.
* Resource quantities, volumes, probes' timing and other container fields are opaque.
* An AI gateway CRD that is missing, or installed after start-up: the watch is enabled.
* `toolserver_reconciler.go`, the defaulting of protocols, ports and port names, and the
  webhooks of other kinds: straight-line code or repeats of the agent versions.
* Manager start-up, metrics, TLS and leader election.
- AcceptedSubAgentIsOneKind: does not model what else `url.Parse` rejects (bad escapes, bad
  ports, control characters), so what is proved of admitted agents holds of a few more.
- TraverseAgent: returns no error, because with the rule for `Get` above it never does.
- Reconcile: the atomic reconciles assume that no API call fails; failures between the
  steps are part of the two protocols.
