# Verified model of the pgway proxy gateway

pgway is a proxy gateway split into a control plane, which stores six kinds of resource
(proxies, pools, load balancers, routers, flows, entrypoints) and the accounts and agents
that may use them, and data planes, which load those resources and forward requests. This
project models the logic of both planes in Dafny and proves what it is meant to guarantee.

Verify with `dafny verify dfyconfig.toml`.

## How the model is organised

| file | models |
|---|---|
| `Options`, `Steps`, `StableSort` | results, sequences of steps that stop at a failure, the stable sort of documents |
| `Keys`, `Pagination` | storage-key order, key-ordered iteration, the cursor scan behind every listing, walks over pages |
| `Routing` | match rules, precompiled patterns, first-match resolution, conversions between document, message and domain form |
| `Resources`, `Service` | documents, validations, Apply and Delete of the six kinds as a specification, and the service that implements it |
| `Documents`, `Updates` | what applying a document of each kind means: when it is accepted, what is stored, what re-applying keeps |
| `ResourceGraph`, `ApplyOrder` | what every run of Apply and Delete keeps; rebuilding and tearing down a store |
| `Balancing`, `DataPlane`, `Instances` | the weighted and round-robin balancers; loading balancers and routing a request; what loaded balancers consist of and the shares they give |
| `Consumer`, `Convergence`, `Overlap` | the event channel, the coalescing consumer and the periodic resync, and when a data plane ends up holding what the store holds |
| `Listeners`, `PubSub`, `Limiter`, `LinkState` | listener reconciliation, the in-memory event bus, the evicting rate limiter, control-plane reachability |
| `Credentials`, `CredentialService`, `CredentialSafety`, `Sessions`, `Accounts`, `Registration`, `AgentLiveness`, `Bootstrap` | users, tokens, agents, and data-plane bootstrap over an unreliable network |

Code that changes state in the source is a class or a method here, and its `ensures` ties it
to a specification function; the lemmas are about those functions and about whole runs.

## Main results

- **No reference ever dangles** in any run of Apply and Delete calls, every weighted balancer's
  pool is static in every reachable state, and replaying the published events gives exactly the
  stored ids (`ResourceGraph.EveryRunSound`).
- **Any reachable store can be rebuilt** from its documents in any order (`ApplyOrder.EveryRunRebuilds`)
  and **torn down** in reverse apply order without a refusal (`ApplyOrder.EveryRunTearsDown`).
- **A data plane with nothing left to do holds what the store holds**, over every interleaving of
  commands, deliveries, timers, resyncs and reloads in which no event is dropped and two reloads of
  one part do not overlap (`Convergence.SerialRunsConverge`); a resync makes up for all earlier drops
  and overlaps (`Convergence.ResyncedRunsConverge`). In such a state every request goes to the balancer
  that the stored configuration chooses, and no missing resource is ever met
  (`Convergence.ConvergedServes`).
- **Listing agrees with "filter, then slice"** on both paths, and a walk over pages is strictly
  increasing and complete while the store changes under it (`Pagination`).
- **Smooth weighted round-robin is exact**: every window of as many picks as the weights sum to
  picks each proxy exactly as often as its weight (`Balancing.EveryWindowExact`), and the weights are
  those of the stored pool, whatever built it (`Instances.EveryRunShares`).
- **Credentials are safe under a stop after any store write** (`CredentialSafety.EveryRunSafe`), a
  revoked token never works again (`Sessions.RevokedForGood`), and an agent that keeps sending
  heartbeats always authenticates (`AgentLiveness.BeatingAgentAuthenticates`).
- **The first administrator is authorised**: over every run, an initialisation that creates a user was
  given the secret of a bootstrap that is still good (`Accounts.FirstAdminIsAuthorised`).
- **Reachability turns in time, and not before**: unreachable a threshold after both proofs of life
  were found stale, connected again a recovery threshold after both were good
  (`LinkStates.UnreachableInTime`, `LinkStates.NotTooEarly`, `LinkStates.RecoversInTime`,
  `LinkStates.NotRecoveredTooEarly`).
- **Bootstrap** over lost requests and replies saves only credentials issued for that agent, and no
  registration token creates two agents (`Bootstrap.EveryBootstrapSound`).

## Where the code does not do what one would expect

Each of these is proved as an exact condition, with a run or an input on which it fails; for dropped
events the failing runs exist under every configuration, and what is proved is what repairs them.

- Reloads of the same part of the data plane may overlap: on two timers when events are coalesced,
  and on the resync goroutine beside the consumer loop. The reload that read first may write last,
  and the old view stays although nothing is pending and no event was dropped. Every quiet run
  without drops has converged if and only if coalescing and resync are both off
  (`Overlap.ConvergesIffLoopAlone`, with `Overlap.StaleBalancerRemains` and
  `Overlap.AddedBalancerLost` for the failing branches). Both are on by default: 100 ms and 5 minutes.
- Events are dropped between loading the store and subscribing, under every configuration
  (`Overlap.MissedBeforeSubscription`), and when the subscription's channel is full, whatever its size
  (`Overlap.FullChannelLoses`). The next resync repairs the view: whatever was dropped or overlapped
  before it begins, the run converges again if nothing is dropped and no reloads overlap from then on
  (`Convergence.ResyncedRunsConverge`).
- A data plane without an agent name retries for ever, because the handler's InvalidArgument counts
  as transient. The number of delivered replies is bounded if and only if the host has a name
  (`Bootstrap.BootstrapEndsIffNamed`). The process configuration falls back to the host name.
- A registration that fails after its token is consumed is said to leave the registry clean, so that
  a fresh token and a retry suffice (`internal/application/controlplane/agent/service.go:36-39`). It does
  if and only if it fails before creating the record (`Registration.RegistryCleanIff`, inputs in
  `Registration.UncleanInputs`). Otherwise every retry of the name is refused until the agent is
  deleted (`Registration.RetryIsRefused`).
- Deleting a user removes the record before the tokens. A token issued before is turned away for good
  if and only if the revocation was reached or the token had expired; otherwise it stands for the next
  user of that name, and the same holds of a password change stopped before the revocation
  (`Sessions.TurnedAwayIff`). The deletion cannot be completed by repeating it
  (`Sessions.RetryNotFound`).
- The lock-free snapshot may still say "connected" when only the heartbeat has gone stale. It differs
  from a recomputed one if and only if connected was published, the watch is up and the heartbeat is
  stale when it is read (`LinkStates.ReadDiffersIff`, `LinkStates.StaleConnectedIsReachable`); the
  rejection decision is always the same (`LinkStates.FastRefinesSimple`).
- Evicting idle rate limiters is unobservable if and only if rate times idle time is at least the
  burst (`Limiter.EvictionInvisibleIff`, with the run of `Limiter.WitnessEvicting` and
  `Limiter.WitnessForever`).
- Round-robin skips out of turn where its 32-bit counter wraps, unless the number of proxies divides
  2^32 (`Balancing.RotatesUnlessWrapping`, `Balancing.SameProxyTwice`).
- Following cursors on an unchanging store ends if and only if the page size is not negative, nothing
  remains to be listed, or the first remaining key is empty (`Pagination.WalkEndsIff`,
  `Pagination.EndlessWalk`).

## Model

| member | source | states |
|---|---|---|
| `StableSort.SortIsStable` | internal/schema/apply_order.go:19-36 | sorting documents orders them by kind rank and keeps the documents of each rank with their order and multiplicity |
| `StableSort.SortMembers` | internal/schema/apply_order.go:19-36 | exactly the given documents occur in the sorted list |
| `Keys.RowsOfSorted` | internal/adapters/repository/badger/pagination.go:28-49 | iteration over a repository visits strictly increasing keys |
| `Keys.RowsOfMembers` | internal/adapters/repository/badger/pagination.go:28-49 | exactly the stored entries occur in the iteration |
| `Keys.LessMeaning` | internal/adapters/repository/badger/pagination.go:39-43 | keys are ordered as in a dictionary: a proper prefix first, otherwise by the first character that differs |
| `Pagination.ListWithCursor` | internal/adapters/repository/badger/pagination.go:13-128 | both scan paths return "filter in key order, drop what lies before the cursor, take a page" with the full match count, for every cursor and page size |
| `Pagination.ListUnfiltered` | internal/adapters/repository/badger/pagination.go:23-70 | the count-and-seek path without a filter computes the same page |
| `Pagination.CollectPage` | internal/adapters/repository/badger/pagination.go:45-68 | the collecting loop cuts exactly one page and remembers the first row left over |
| `Pagination.ScanMatches` | internal/adapters/repository/badger/pagination.go:72-127 | the single pass with its reached-cursor and page-full flags computes the same page |
| `Pagination.PageCovers` | internal/adapters/repository/badger/pagination.go:13-128 | a page holds exactly the matching rows between its cursor and the next cursor |
| `Pagination.WalkIncreases` | internal/adapters/repository/badger/pagination.go:39-53 | a walk over pages returns strictly increasing keys, so none twice, whatever is written between the calls |
| `Pagination.WalkReturnsAll` | internal/adapters/repository/badger/pagination.go:80-125 | a complete walk returns every key that is stored and matching throughout, whatever is written between the calls |
| `Pagination.WalkReturnsOnlyStored` | internal/adapters/repository/badger/pagination.go:80-125 | every returned row was stored and matching in the very call that returned it |
| `Pagination.PageWalkComplete` | internal/adapters/repository/badger/pagination.go:13-128 | on an unchanging store the pages concatenate to the whole filtered listing |
| `Pagination.PageWalkCalls` | internal/adapters/repository/badger/pagination.go:13-128 | such a walk takes the ceiling of matches over page size calls, and one for an empty listing |
| `Pagination.NegativeSizeNeverAdvances` | internal/adapters/repository/badger/pagination.go:45-68 | a negative page size returns no rows and the first remaining key as its cursor, and the call with that cursor gives the same answer |
| `Pagination.WalkEndsIff` | internal/adapters/repository/badger/pagination.go:13-128 | for any page size, following the cursors on an unchanging store ends if and only if the size is not negative, nothing remains, or the first remaining key is empty |
| `Pagination.EndlessWalk` | internal/adapters/repository/badger/pagination.go:45-68 | a store of one row and a size on which it does not end |
| `Routing.HostSuffixMeaning` | internal/application/core/domain/router.go:244-293 | a host_suffix value matches the domain itself and every name below it, with or without a leading dot |
| `Routing.PathPrefixMeaning` | internal/application/core/domain/router.go:270-271 | a path_prefix condition holds of exactly the paths that begin with its value |
| `Routing.HeaderMeaning` | internal/application/core/domain/router.go:282-290 | a header condition compares the header named before the first colon with what follows it, and never holds without a colon |
| `Routing.ConditionMeaning` | internal/application/core/domain/router.go:244-293 | which part of the request and which comparison decides each type of condition; an unknown type never holds |
| `Routing.MatchMeaning` | internal/application/core/domain/router.go:202-241 | a not that holds overrules, then a valid shorthand decides, then every condition of all, then some condition of any |
| `Routing.EvaluateMatch` | internal/application/core/domain/router.go:202-241 | the evaluation loops compute: not excludes, then the shorthand, then all, then any |
| `Routing.CompileConditions` | internal/application/core/domain/router.go:110-147 | compiling a list succeeds exactly when every pattern is acceptable, and changes nothing but compiled patterns |
| `Routing.CompileMatch` | internal/application/core/domain/router.go:110-135 | the same for a whole match |
| `Routing.RouterObject.Compile` | internal/application/core/domain/router.go:101-108 | succeeds exactly when every pattern of every rule is acceptable; then every rule is compiled; the configuration never changes |
| `Routing.RouterObject.Validate` | internal/application/core/domain/router.go:88-96 | accepts exactly the valid rule lists and leaves them compiled |
| `Routing.ValidRuleMeaning` | internal/application/core/domain/router.go:149-188 | a rule is valid exactly when it has a target, something to match, a value where its type needs one, and only known condition types |
| `Routing.RouterObject.Resolve` | internal/application/core/domain/router.go:192-200 | returns the first match |
| `Routing.ValidateCompilesAll` | internal/application/core/domain/router.go:88-147 | after validation no path_regex condition is left without its own compiled pattern |
| `Routing.CompiledMatchSays` | internal/application/core/domain/router.go:202-293 | evaluating a compiled rule gives the boolean meaning of its configuration |
| `Routing.ResolveMeaning` | internal/application/core/domain/router.go:192-293 | resolution returns the target of the least-index rule whose configuration says yes, and nothing exactly when none does |
| `Routing.CatchAllEndsRouter` | internal/application/core/domain/router.go:192-241 | dropping the rules after a catch_all without a not-condition changes no resolution |
| `Routing.AppendAll` | internal/adapters/grpc/server/router.go:92-151 | the append loops of the conversions convert every element in order |
| `Routing.RuleRoundTrip` | internal/adapters/grpc/client/router.go:127-174 | a rule sent as a message and read back is the rule without its compiled patterns |
| `Routing.MessageCarries` | internal/adapters/grpc/server/router.go:184-223 | a message carries each field of a rule, and each condition in order, in the field of that name |
| `Routing.EmptyMessageMatchesNothing` | internal/adapters/grpc/client/router.go:139-163 | a rule that arrives without a match matches no request |
| `Routing.WireKeepsResolution` | internal/adapters/grpc/server/router.go:164-223 | a validated router sent over the wire keeps its id, title and description, and compiled there resolves every request as the original does |
| `Routing.WireKeepsSpec` | internal/adapters/grpc/client/router.go:60-107 | a specification sent over the wire arrives unchanged, so it builds the router it builds locally |
| `Routing.RuleSpecDumpRoundTrip` | internal/application/controlplane/api/router.go:97-145 | the specification of the rule built from a specification is that specification |
| `ControlPlane.Service.CollectDependents` | internal/application/controlplane/api/deps.go:11-24 | lists every match of a filter and names exactly those, in key order |
| `ControlPlane.Service.DependentsOf` | internal/application/controlplane/api/deps.go:11-91 | the five reverse-reference checks name the dependents of a resource |
| `ControlPlane.Service.RequireAll` | internal/application/controlplane/api/forward_refs.go:9-42 | the loop over references finds the first one that is not stored |
| `ControlPlane.Service.FireEvent` | internal/application/controlplane/api/service.go:42-61 | one event is published, after the others |
| `ControlPlane.Service.DeleteProxy` | internal/application/controlplane/api/proxy.go:91-108 | store, events and error are those of the specification, whose meaning `Documents` states |
| `ControlPlane.Service.DeletePool` | internal/application/controlplane/api/pool.go:83-100 | store, events and error are those of the specification, whose meaning `Documents` states |
| `ControlPlane.Service.DeleteBalancer` | internal/application/controlplane/api/balancer.go:91-108 | store, events and error are those of the specification, whose meaning `Documents` states |
| `ControlPlane.Service.DeleteRouter` | internal/application/controlplane/api/router.go:78-95 | store, events and error are those of the specification, whose meaning `Documents` states |
| `ControlPlane.Service.DeleteFlow` | internal/application/controlplane/api/flow.go:80-97 | store, events and error are those of the specification, whose meaning `Documents` states |
| `ControlPlane.Service.DeleteEntrypoint` | internal/application/controlplane/api/entrypoint.go:80-93 | store, events and error are those of the specification, whose meaning `Documents` states |
| `ControlPlane.Service.ApplyProxy` | internal/application/controlplane/api/proxy.go:17-69 | store, events and error are those of the specification, whose meaning `Documents` states |
| `ControlPlane.Service.ApplyPool` | internal/application/controlplane/api/pool.go:17-67 | store, events and error are those of the specification, whose meaning `Documents` states |
| `ControlPlane.Service.BuildPool` | internal/application/controlplane/api/pool.go:102-126 | builds the pool of a specification, a missing weight being 1 |
| `ControlPlane.Service.ApplyBalancer` | internal/application/controlplane/api/balancer.go:17-75 | store, events and error are those of the specification, whose meaning `Documents` states |
| `ControlPlane.Service.ApplyRouter` | internal/application/controlplane/api/router.go:17-62 | store, events and error are those of the specification, whose meaning `Documents` states |
| `ControlPlane.Service.ApplyFlow` | internal/application/controlplane/api/flow.go:17-64 | store, events and error are those of the specification, whose meaning `Documents` states |
| `ControlPlane.Service.ApplyEntrypoint` | internal/application/controlplane/api/entrypoint.go:17-64 | store, events and error are those of the specification, whose meaning `Documents` states |
| `ControlPlane.Service.ApplyRaw` | internal/adapters/cli/dispatcher.go:26-43 | a document is applied by its kind and version, and refused when it is unknown or does not decode |
| `ControlPlane.Service.ApplyDocuments` | internal/adapters/cli/dispatcher.go:45-53 | documents are applied in dependency order up to the first refusal |
| `ApplyOrder.StopsAtFirstRefusal` | internal/adapters/cli/dispatcher.go:45-53 | a refusal is that of the first refused document in apply order; those before it are applied and those after it are not tried |
| `ResourceGraph.ListedExactly` | internal/adapters/repository/badger/pool_repository.go:58-83 | a filtered listing names exactly the stored resources that match |
| `ResourceGraph.DependentsIffReferenced` | internal/application/controlplane/api/deps.go:11-91 | a delete is refused as in use exactly when some stored resource refers to the name |
| `ResourceGraph.DeleteKeepsReferences` | internal/application/controlplane/api/deps.go:11-91 | no delete leaves a dangling reference |
| `ResourceGraph.ApplyKeepsReferences` | internal/application/controlplane/api/forward_refs.go:9-42 | no apply creates a dangling reference |
| `ResourceGraph.ApplyKeepsWeighted` | internal/application/controlplane/api/pool.go:128-140 | weighted balancers stay on static pools, whichever of the two is applied last |
| `ResourceGraph.DeleteKeepsWeighted` | internal/application/controlplane/api/balancer.go:45-53 | the same for deletes |
| `ResourceGraph.RefusedIsSilent` | internal/application/controlplane/api/flow.go:17-64 | a refused call changes nothing and publishes nothing |
| `ResourceGraph.EveryRunSound` | internal/application/controlplane/api/deps.go:11-91 | over every run from an empty store: no reference dangles, weighted balancers sit on static pools, and the events replay to the stored ids |
| `ApplyOrder.EveryRunFormed` | internal/application/controlplane/api/pool.go:17-67 | over every run, every stored resource carries its own id and is valid |
| `ApplyOrder.PoolSpecRoundTrip` | internal/application/controlplane/api/pool.go:102-126 | a valid pool has a valid specification that builds it again |
| `ApplyOrder.RouterSpecRoundTrip` | internal/application/controlplane/api/router.go:97-145 | a stored router has a valid specification that builds it again |
| `ApplyOrder.DocumentAccepted` | internal/adapters/cli/dispatcher.go:26-43 | the document of a resource is accepted by any part of its store that holds what it refers to, and adds exactly that resource |
| `ApplyOrder.UnknownRefused` | internal/adapters/cli/dispatcher.go:26-43 | exactly documents of another kind or version are refused as unknown |
| `ApplyOrder.EarlierDocumentsSuffice` | internal/schema/apply_order.go:5-36 | in rank order, everything a document refers to has been applied before it |
| `ApplyOrder.RebuildFromDocuments` | internal/adapters/cli/dispatcher.go:45-53 | the documents of a reachable store, in any order, all succeed on an empty store and rebuild it up to timestamps |
| `ApplyOrder.EveryRunRebuilds` | internal/adapters/cli/dispatcher.go:45-53 | the same for the store of every run |
| `ApplyOrder.NextDeleteAccepted` | internal/application/controlplane/api/deps.go:11-91 | in reverse apply order the next delete is never refused |
| `ApplyOrder.EveryRunTearsDown` | internal/schema/apply_order.go:5-13 | from the store of every run, deleting everything in reverse apply order succeeds and leaves nothing |
| `Updates.CreationTimeStays` | internal/application/controlplane/api/timestamps.go:12-20 | a resource keeps its creation time through every run in which it stays stored |
| `Updates.OmittedCredentialsSurvive` | internal/application/controlplane/api/proxy.go:40-57 | a proxy's credentials survive any number of calls that leave them out |
| `Updates.GivenCredentialsReplace` | internal/application/controlplane/api/proxy.go:130-163 | a document by URL or with credentials stores exactly what it says |
| `Updates.ApplyTwice` | internal/application/controlplane/api/proxy.go:17-69 | applying a named document of any kind again is accepted and changes only the time of update |
| `Documents.ProxyAcceptedIff` | internal/application/controlplane/api/proxy.go:17-41 | a proxy document is accepted exactly when the endpoint of its URL or fields has a known protocol, a host and a port |
| `Documents.ProxyStored` | internal/application/controlplane/api/proxy.go:130-152 | an accepted one stores exactly the protocol, host and port it points at and its labels, under its name or the generated one, and changes nothing else |
| `Documents.PoolAcceptedIff` | internal/application/controlplane/api/pool.go:17-50 | a pool document is accepted exactly when static with distinct stored members of positive weight, or dynamic with a selector and no weighted balancer on it |
| `Documents.PoolStored` | internal/application/controlplane/api/pool.go:102-126 | an accepted one stores one member per given member, in order, with the given weight or 1, or the selector |
| `Documents.BalancerAcceptedIff` | internal/application/controlplane/api/balancer.go:17-53 | a balancer document is accepted exactly with a known type, a stored pool that is static for weighted, and a reset interval only where it makes sense |
| `Documents.BalancerStored` | internal/schema/balancer/v1/spec.go:17-62 | an accepted one stores its fields and the given reset interval, or one minute for least-bytes |
| `Documents.RouterAcceptedIff` | internal/application/controlplane/api/router.go:17-45 | a router document is accepted exactly when it has rules and each has an id, a stored target, known conditions and patterns that compile |
| `Documents.RouterStored` | internal/application/controlplane/api/router.go:97-145 | an accepted one stores its rules and their conditions in order, without compiled patterns |
| `Documents.EmptyMessageRefused` | internal/adapters/grpc/server/router.go:110-151 | a router whose rule arrives without a match is refused |
| `Documents.FlowAcceptedIff` | internal/application/controlplane/api/flow.go:17-45 | a flow document is accepted exactly when it names a router or a balancer and what it names is stored |
| `Documents.FlowStored` | internal/application/controlplane/api/flow.go:17-64 | an accepted one stores the router and balancer it names |
| `Documents.EntrypointAcceptedIff` | internal/application/controlplane/api/entrypoint.go:17-45 | an entrypoint document is accepted exactly with a known protocol, a host, a port and a stored flow |
| `Documents.EntrypointStored` | internal/application/controlplane/api/entrypoint.go:17-64 | an accepted one stores its fields |
| `Documents.MissingIsFirst` | internal/application/controlplane/api/forward_refs.go:9-42 | a refusal for a missing reference names the first reference of the document that is not stored |
| `Documents.SimpleRefusals` | internal/application/controlplane/api/flow.go:17-45 | the exact reason for which a proxy, balancer, flow or entrypoint document is refused, the first one counting |
| `Documents.PoolRefusal` | internal/application/controlplane/api/pool.go:17-50 | a pool is refused for what it says, for a member that is not stored, or naming a stored weighted balancer on it |
| `Documents.RouterRefusal` | internal/application/controlplane/api/router.go:17-45 | a router is refused for what its document says, then for its conditions and patterns, then for a target that is not stored |
| `Documents.DeleteOutcome` | internal/application/controlplane/api/deps.go:11-91 | a delete is refused without a name, while referenced (naming exactly the resources that refer to it, once each, in order) and when not stored, and otherwise removes and publishes exactly that resource |
| `Balancing.Weighted.constructor` | internal/application/dataplane/balancer/algorithm/weighted.go:23-60 | starts with zero credits and the weights' total |
| `Balancing.Weighted.Next` | internal/application/dataplane/balancer/algorithm/weighted.go:62-79 | raises every credit by its weight, picks the first largest and charges it the total; nothing without proxies |
| `Balancing.PickSettled` | internal/application/dataplane/balancer/algorithm/weighted.go:62-79 | credits sum to zero and stay above minus the total |
| `Balancing.CreditIsDue` | internal/application/dataplane/balancer/algorithm/weighted.go:62-79 | after k picks a credit is k times the weight minus the total times the number of its picks |
| `Balancing.NeverAPickAhead` | internal/application/dataplane/balancer/algorithm/weighted.go:62-79 | at every moment no proxy is a whole pick ahead of its share |
| `Balancing.ExactShares` | internal/application/dataplane/balancer/algorithm/weighted.go:62-79 | one round picks each proxy as often as its weight and returns all credits to zero |
| `Balancing.PicksRepeat` | internal/application/dataplane/balancer/algorithm/weighted.go:62-79 | picks repeat with the total weight as period |
| `Balancing.EveryWindowExact` | internal/application/dataplane/balancer/algorithm/weighted.go:62-79 | every window of total-weight picks, wherever it starts, picks each proxy as often as its weight |
| `Balancing.EqualWeightsTakeTurns` | internal/application/dataplane/balancer/algorithm/weighted.go:62-79 | members of equal weight are picked in turn, in their order |
| `Balancing.RoundRobin.Next` | internal/application/dataplane/balancer/algorithm/roundrobin.go:41-48 | call number n returns the proxy at n modulo 2^32 modulo the number of proxies |
| `Balancing.RotatesUnlessWrapping` | internal/application/dataplane/balancer/algorithm/roundrobin.go:41-48 | consecutive calls move on by one proxy, except at the wrap, where they do if and only if the number of proxies divides 2^32 |
| `Balancing.SameProxyTwice` | internal/application/dataplane/balancer/algorithm/roundrobin.go:41-48 | with three proxies the wrap returns the first proxy twice in a row |
| `DataPlane.FetchByIds` | internal/application/controlplane/api/proxy.go:110-118 | the members of a static pool, in order, or nothing when one is missing |
| `DataPlane.BalancerService.Bootstrap` | internal/application/dataplane/balancer/service.go:32-71 | installs exactly the stored balancers, or keeps the old ones when one cannot be built |
| `DataPlane.ReachableStoresLoad` | internal/application/dataplane/balancer/build.go:10-21 | on every reachable store every balancer can be built, and with proxies when its pool is static |
| `DataPlane.PickNeverBroken` | internal/application/dataplane/balancer/service.go:73-93 | a stored balancer yields a proxy, except exactly when its pool selects by labels no proxy carries |
| `Instances.StaticInstance` | internal/application/dataplane/balancer/algorithm/weighted.go:23-60 | on every reachable store the balancer of a static pool has the stored proxies of the members, in order, and their weights when weighted |
| `Instances.DynamicInstance` | internal/adapters/repository/badger/pagination.go:134-141 | the balancer of a dynamic pool has exactly the stored proxies whose labels equal every label of the selector, once each, in key order |
| `Instances.LoadedShares` | internal/application/dataplane/balancer/algorithm/weighted.go:62-79 | every window of as many picks as the stored members' weights sum to picks each member exactly as often as its weight |
| `Instances.EveryRunShares` | internal/application/dataplane/balancer/service.go:32-71 | the same for the store of every run |
| `DataPlane.RequestsNeverDangle` | internal/application/dataplane/api/flow.go:17-46 | on every reachable store a request reaches the balancer its configuration chooses (the first applicable rule's target, or the flow's own), unless no rule applies or that balancer's pool selects by labels no proxy carries |
| `DataPlane.EveryRunServes` | internal/application/dataplane/api/flow.go:17-46 | the same for the store of every run |
| `Consumers.Consumer.Offer` | internal/application/dataplane/consumer/consumer.go:89-133 | buffers an event under its key, the last change of an entrypoint winning, starts the key's timer, asks for a flush at the buffer limit, and after the last flush asks for direct dispatch instead |
| `Consumers.Consumer.TakeKeyEvents` | internal/application/dataplane/consumer/consumer.go:156-206 | empties a key, stops its timer and yields one event for it, or one per entrypoint in id order |
| `Consumers.Consumer.FlushAll` | internal/application/dataplane/consumer/consumer.go:135-147 | the last flush yields exactly what every key had buffered and closes the consumer |
| `Consumers.LastChangeWins` | internal/application/dataplane/consumer/consumer.go:109-115 | whatever events were buffered, a flush dispatches for exactly the changed entrypoints what was last said of each |
| `Consumers.FullAtLimit` | internal/application/dataplane/consumer/consumer.go:125-133 | a key is flushed early exactly when as many of its events as the limit are buffered |
| `Consumers.OfferedTells` | internal/application/dataplane/consumer/consumer.go:89-133 | after any events a key is buffered exactly when one of them had it, with their number as its count |
| `Consumers.DropsAsOffered` | internal/adapters/pubsub/memory/pubsub.go:28-39 | an event published to the subscription is dropped, and otherwise queued in order, exactly as the event bus offers it to a channel |
| `Convergence.CommandChanges` | internal/application/controlplane/api/service.go:42-61 | every change of the store publishes an event of the key whose reload reads the changed part |
| `Convergence.FlushAsks` | internal/application/dataplane/consumer/consumer.go:149-206 | flushing a buffered key dispatches at least one event of that key |
| `Convergence.QuietConverges` | internal/application/dataplane/api/eventhandler.go:10-38 | when nothing is owed, cache, balancers and listeners are those of the store |
| `Convergence.StepKeeps` | internal/application/dataplane/consumer/consumer.go:71-219 | every step that drops no event keeps: each part of the data plane is current, being reloaded, or still owed a reload |
| `Convergence.SerialRunsConverge` | internal/application/dataplane/consumer/consumer.go:71-219 | over every interleaving, resyncs included, without dropped events and overlapping reloads, a data plane with nothing left to do holds what the store holds |
| `Convergence.ConvergedServes` | internal/adapters/http/adapter.go:36-44 | a converged data plane listens on the host and port of exactly the stored entrypoints, and the stored configuration alone explains what becomes of a request to them, down to the balancer |
| `Convergence.LoopIsAlone` | internal/application/dataplane/consumer/consumer.go:71-87 | without a window and without resyncs everything is reloaded by the consumer loop alone |
| `Convergence.ResyncHeals` | internal/application/dataplane/agenthost/resync.go:12-23 | a resync that nothing interferes with leaves exactly what the store holds, whatever was there before |
| `Convergence.ResyncedRunsConverge` | internal/application/dataplane/agenthost/resync.go:10-23 | whatever was dropped or overlapped before a resync begins, if nothing is dropped and no reloads overlap from then on, a data plane with nothing left to do holds what the store holds, with commands, deliveries and timers interleaved |
| `Convergence.RunKeepsShape` | internal/application/dataplane/consumer/consumer.go:71-219 | in every run, drops and overlaps included, every buffered key has something to flush and every goroutine holds a reading of its own job |
| `Overlap.OverlapDiverges` | internal/application/dataplane/consumer/consumer.go:118-133 | two changes whose reloads overlap on timers leave the balancers of the first in place, with nothing pending and nothing dropped |
| `Overlap.ResyncDiverges` | cmd/pgway/main.go:229-244 | a change between the read and the write of a resync is undone by the resync, with nothing pending and nothing dropped |
| `Overlap.StaleBalancerRemains` | internal/application/dataplane/consumer/consumer.go:118-133 | with a window, a concrete run in which a deleted balancer stays |
| `Overlap.AddedBalancerLost` | cmd/pgway/main.go:229-244 | with resync and without a window, a concrete run in which an added balancer is lost |
| `Overlap.ConvergesIffLoopAlone` | internal/application/dataplane/consumer/consumer.go:71-133 | every run without drops and with nothing left to do has converged if and only if coalescing and resync are both off |
| `Overlap.MissedBeforeSubscription` | cmd/pgway/main.go:160-221 | a change between loading and subscribing is missed under every configuration |
| `Overlap.FullChannelLoses` | internal/adapters/pubsub/memory/pubsub.go:28-39 | for every channel size, a change behind a full channel is lost although coalescing is off |
| `Listeners.Adapter.constructor` | internal/adapters/http/adapter.go:108-127 | one server per entrypoint id, none started |
| `Listeners.Adapter.Run` | internal/adapters/http/adapter.go:163-172 | every configured server is started, once |
| `Listeners.Adapter.Reconcile` | internal/adapters/http/adapter.go:50-83 | the critical section aligns the server map with the entrypoints, keeps up-to-date servers, and schedules exactly the new ones to start and the obsolete ones to stop |
| `Listeners.DesiredMeaning` | internal/adapters/http/adapter.go:56-59 | exactly the ids of the entrypoints are wanted, each with the address of the last entrypoint of that id |
| `Listeners.Adapter.StopObsolete` | internal/adapters/http/adapter.go:65-72 | removals and address changes leave the map and are scheduled to stop, each once |
| `Listeners.Adapter.StartMissing` | internal/adapters/http/adapter.go:74-82 | missing entrypoints get new, distinct servers that are scheduled to start, each once |
| `Listeners.EveryRunAccounted` | internal/adapters/http/adapter.go:50-106 | over every order of critical sections: each server starts and stops at most once, those started and not stopped are the map, and the map matches the last section's entrypoints |
| `Listeners.UnchangedStaysSame` | internal/adapters/http/adapter.go:50-106 | a server whose entrypoint keeps its address stays the same object |
| `PubSub.Broker.PublishEvent` | internal/adapters/pubsub/memory/pubsub.go:28-39 | every registered channel is offered the event, in any order and without waiting |
| `PubSub.Broker.SubscribeChannel` | internal/adapters/pubsub/memory/pubsub.go:41-46 | a new open channel is registered |
| `PubSub.Broker.RemoveChannel` | internal/adapters/pubsub/memory/pubsub.go:48-53 | a cancelled subscription leaves the registry |
| `PubSub.Broker.CloseChannel` | internal/adapters/pubsub/memory/pubsub.go:48-56 | its channel is closed only after that |
| `PubSub.EveryRunSafe` | internal/adapters/pubsub/memory/pubsub.go:28-59 | over every interleaving nothing is sent on a closed channel, and each subscriber receives an in-order part of what was published while it was registered |
| `PubSub.NothingMissed` | internal/adapters/pubsub/memory/pubsub.go:28-39 | a subscriber that had room at every publish misses nothing |
| `PubSub.ReceivesInOrder` | internal/adapters/pubsub/memory/pubsub.go:41-59 | a reader gets the buffered events one by one, oldest first, then the next event offered; a closed channel only drains |
| `PubSub.HeardWhileRegistered` | internal/adapters/pubsub/memory/pubsub.go:28-59 | a new subscriber is offered the next event, and a cancelled one nothing more |
| `PubSub.OfferedToRegistered` | internal/adapters/pubsub/memory/pubsub.go:28-39 | an event is offered to exactly the registered channels |
| `Limiter.LimiterRegistry.AllowRequest` | internal/adapters/dashboard/limiter.go:47-65 | answer and registry are those of the specification |
| `Limiter.LimiterRegistry.Sweep` | internal/adapters/dashboard/limiter.go:67-74 | exactly the entries idle for longer than the idle time are dropped |
| `Limiter.AllowMirrors` | internal/adapters/dashboard/limiter.go:47-74 | a missing bucket is a full one: the evicting limiter and one that never evicts stay in step |
| `Limiter.EntriesStayRecent` | internal/adapters/dashboard/limiter.go:47-74 | after every call no entry has been idle for longer than idle time plus sweep interval |
| `Limiter.EvictionInvisibleIff` | internal/adapters/dashboard/limiter.go:47-74 | both limiters answer alike on every sequence of calls if and only if rate times idle time is at least the burst |
| `Limiter.GrantsBounded` | internal/adapters/dashboard/limiter.go:34-65 | where eviction is invisible, no client is granted more than the burst plus the rate times the time its requests are spread over |
| `Limiter.SweepMeaning` | internal/adapters/dashboard/limiter.go:47-74 | a request sweeps exactly when an interval has passed, and a sweep forgets exactly the clients idle for longer than the idle time |
| `LinkStates.LinkState.RecomputeLocked` | internal/application/dataplane/agenthost/linkstate.go:145-194 | the hysteresis and the published snapshot are those of the specification |
| `LinkStates.LinkState.TouchHeartbeat` | internal/application/dataplane/agenthost/linkstate.go:69-74 | a heartbeat is recorded and the state recomputed |
| `LinkStates.LinkState.MarkWatchUp` | internal/application/dataplane/agenthost/linkstate.go:77-82 | the watch proof is recorded and the state recomputed |
| `LinkStates.LinkState.MarkWatchDown` | internal/application/dataplane/agenthost/linkstate.go:85-90 | its loss is recorded and the state recomputed |
| `LinkStates.LinkState.Read` | internal/application/dataplane/agenthost/linkstate.go:94-124 | answers from the published snapshot unless time may have changed reachability |
| `LinkStates.FastRefinesSimple` | internal/application/dataplane/agenthost/linkstate.go:94-194 | at non-decreasing times the fast read agrees with always recomputing, except connected against degraded, exactly when the heartbeat is stale under a published connected |
| `LinkStates.ReadDiffersIff` | internal/application/dataplane/agenthost/linkstate.go:94-124 | after every run the next operation publishes differently in the two machines if and only if it is a read that finds connected published, the watch up and the heartbeat stale |
| `LinkStates.StaleConnectedIsReachable` | internal/application/dataplane/agenthost/linkstate.go:94-124 | that difference does occur |
| `LinkStates.UnreachableOnlyAfterBothProofsGone` | internal/application/dataplane/agenthost/linkstate.go:138-177 | the link turns unreachable only when the watch is down and the last heartbeat is more than two thresholds old |
| `LinkStates.RunRemembers` | internal/application/dataplane/agenthost/linkstate.go:69-90 | the machine knows the time of the last heartbeat and the last word on the watch |
| `LinkStates.UnreachableInTime` | internal/application/dataplane/agenthost/linkstate.go:145-160 | if both proofs were stale at some operation and neither came back, any operation at least a threshold later publishes unreachable, rejecting exactly under fail-closed |
| `LinkStates.NotTooEarly` | internal/application/dataplane/agenthost/linkstate.go:145-160 | a reachable link that had a proof at some operation is not unreachable within a threshold of the next one |
| `LinkStates.RecoversInTime` | internal/application/dataplane/agenthost/linkstate.go:160-177 | if both proofs were good at every operation for the recovery threshold, the link is connected and rejects nothing, whatever came before |
| `LinkStates.NotRecoveredTooEarly` | internal/application/dataplane/agenthost/linkstate.go:160-177 | an unreachable link that lacked a proof at some operation is still unreachable within the recovery threshold of the next one |
| `LinkStates.PublishedState` | internal/application/dataplane/agenthost/linkstate.go:126-194 | a recomputed snapshot says degraded exactly when a proof is missing and the link is not unreachable |
| `CredentialServices.CredentialService.VerifyBearer` | internal/application/controlplane/auth/authenticator.go:36-76 | a token is verified as the specification says; a dead one is rejected and deleted, and rejected even when the deletion fails |
| `CredentialServices.CredentialService.RegisterAgent` | internal/application/controlplane/agent/service.go:40-63 | consume, create, issue, in that order, up to an interruption |
| `CredentialServices.CredentialService.SendHeartbeat` | internal/application/controlplane/agent/service.go:68-93 | save the agent, then extend its token, up to an interruption |
| `CredentialServices.CredentialService.RemoveAgent` | internal/application/controlplane/agent/service.go:124-142 | revoke, then delete, up to an interruption |
| `CredentialServices.CredentialService.Initialise` | internal/application/controlplane/auth/service.go:89-123 | first-time initialisation, up to an interruption |
| `CredentialServices.CredentialService.RemoveUser` | internal/application/controlplane/auth/service.go:182-209 | last-admin check, delete, revoke, up to an interruption |
| `CredentialServices.CredentialService.SetPassword` | internal/application/controlplane/auth/service.go:224-254 | save, then revoke, up to an interruption |
| `CredentialServices.CredentialService.DeleteWhere` | internal/adapters/repository/badger/token_repository.go:121-155 | collects and deletes exactly the matching tokens |
| `CredentialSafety.RegisterJustified` | internal/application/controlplane/agent/service.go:40-63 | at each write of a registration its preconditions hold |
| `CredentialSafety.WritesKeepSafe` | internal/application/controlplane/auth/agent_credentials.go:63-142 | justified writes keep the stores safe, wherever they stop, and keep an administrator |
| `CredentialSafety.EveryRunSafe` | internal/application/controlplane/agent/service.go:40-142 | over every run with stops after any write: each agent token names a recorded agent, each agent has at most one token, each registration token created at most one agent, and initialisation created at most one user |
| `CredentialSafety.AdminRemains` | internal/application/controlplane/auth/service.go:182-209 | once an administrator exists every later state has one |
| `CredentialSafety.UserTokensRevoked` | internal/application/controlplane/auth/service.go:182-254 | after a completed deletion or password change no stored token names the user |
| `CredentialSafety.AgentTokensRevoked` | internal/application/controlplane/agent/service.go:124-142 | after a completed deletion neither record nor token of the agent is stored |
| `Sessions.LoginAuthenticates` | internal/application/controlplane/auth/service.go:125-144 | the token of a completed login stands for that user for exactly the session's lifetime |
| `Sessions.NewPasswordDecides` | internal/application/controlplane/auth/service.go:224-254 | after a password change the new password logs in and no other does |
| `Sessions.OnlyPasswordChanges` | internal/application/controlplane/auth/service.go:233-254 | a password change changes that user's password, ends that user's sessions and touches nothing else |
| `Sessions.CreatedUserLogsIn` | internal/application/controlplane/auth/service.go:153-173 | a created user logs in with the given or generated password and with no other |
| `Sessions.LogoutRevokes` | internal/application/controlplane/auth/service.go:146-151 | a completed logout revokes the token, and so does failing to authenticate with a stored one |
| `Sessions.RevokedForGood` | internal/application/controlplane/auth/authenticator.go:36-76 | over every run, a token that was issued and is no longer stored never authenticates again |
| `Sessions.TurnedAwayIff` | internal/application/controlplane/auth/service.go:182-254 | after a deletion or password change stopped anywhere, a token of the user is turned away through every later run if and only if the revocation was reached or the token had expired |
| `Sessions.RetryNotFound` | internal/application/controlplane/auth/service.go:182-209 | a deletion stopped before the revocation is not found when repeated, and the tokens stay |
| `Accounts.FirstAdminIsAuthorised` | internal/application/controlplane/auth/service.go:54-123 | over every run, an initialisation that creates a user met no user, was given the secret of a bootstrap that neither a restart, another bootstrap nor an initialisation has ended, and made an administrator who logs in with exactly the given password |
| `Accounts.InitAcceptedIff` | internal/application/controlplane/auth/service.go:89-123 | an initialisation is accepted exactly without users, with the good secret, a name and a password of 8 to 72 characters |
| `Accounts.LoginAcceptedIff` | internal/application/controlplane/auth/service.go:125-144 | a login succeeds exactly with the user's current password |
| `Accounts.ChangeNeedsOldPassword` | internal/application/controlplane/auth/service.go:211-222 | a password change is done exactly when the old password would have logged in and the new one has an acceptable length |
| `Accounts.CreateAcceptedIff` | internal/application/controlplane/auth/service.go:256-283 | a user is created exactly with a free name, a known role or none, and a password of acceptable length |
| `Accounts.CreatedRole` | internal/application/controlplane/auth/service.go:153-173 | a created user has the given role, or is a member when none was given |
| `Accounts.OnlyLastAdminRefused` | internal/application/controlplane/auth/service.go:182-195 | exactly the only administrator is refused deletion |
| `Accounts.TokenLifetime` | internal/application/controlplane/auth/agent_credentials.go:17-61 | a registration token admits a valid agent with a free name for exactly its lifetime |
| `Accounts.RegistrationTokenLasts` | internal/adapters/repository/badger/registration_token_repository.go:48-101 | over every run, a registration token that nobody uses stays good until its time |
| `Accounts.InvalidAgentRefused` | internal/application/controlplane/agent/service.go:40-48 | an agent without a name or with an unnamed label is not registered |
| `Accounts.RegisteredRecord` | internal/application/controlplane/agent/service.go:40-63 | a completed registration records the agent as given with the time, uses its token up and issues one for the agent |
| `Accounts.HeartbeatRecorded` | internal/application/controlplane/agent/service.go:68-112 | a completed heartbeat records its time and nothing else about the agent; deregistering clears it and keeps the token |
| `Accounts.OnlyAgentsBeat` | internal/application/controlplane/agent/service.go:68-112 | users' and rejected tokens can neither send heartbeats nor deregister |
| `Accounts.WhoIsIt` | internal/application/controlplane/auth/authenticator.go:36-76 | a token stands for exactly the user or agent it names, while stored, not expired and its subject exists |
| `Accounts.VerifyMeaning` | internal/application/controlplane/auth/authenticator.go:36-76 | verifying accepts exactly a token that stands for somebody and drops a stored one that does not |
| `Accounts.DeleteAgentReply` | internal/application/controlplane/agent/service.go:124-142 | deleting an agent is refused without a name and for an unknown one |
| `Registration.RegistryCleanIff` | internal/application/controlplane/agent/service.go:36-63 | a registration that does not complete leaves the agents unchanged if and only if it does not get as far as creating the record, which then has no token |
| `Registration.UncleanInputs` | internal/application/controlplane/agent/service.go:40-63 | inputs on which the record is left behind, with and without an interruption |
| `Registration.RetryIsRefused` | internal/application/controlplane/agent/service.go:36-63 | until the agent is deleted, every further registration of its name is refused through every run |
| `Registration.DeletionUnblocks` | internal/application/controlplane/agent/service.go:124-142 | after a completed deletion the name can be registered again |
| `AgentLiveness.OperationSpares` | internal/application/controlplane/auth/agent_credentials.go:101-142 | while an agent's token is valid, only deleting the agent or logging the token out can take it away, and nothing shortens it |
| `AgentLiveness.HeartbeatExtends` | internal/application/controlplane/agent/service.go:68-93 | a completed heartbeat sets the expiry to a full lifetime from now |
| `AgentLiveness.StepStaysAlive` | internal/application/controlplane/auth/agent_credentials.go:101-128 | no operation moves the expiry of a live agent's token backwards |
| `AgentLiveness.BeatingAgentAuthenticates` | internal/application/controlplane/auth/authenticator.go:36-76 | an agent whose completed heartbeats are at most a lifetime apart authenticates at every moment until it is deleted |
| `AgentLiveness.RegistrationStartsAlive` | internal/application/controlplane/agent/service.go:40-63 | a completed registration is where such a run starts |
| `Bootstrap.BootstrapWithRetry` | internal/application/dataplane/agenthost/retry.go:24-83 | the retry loop stops at the first success or permanent error and otherwise tries again |
| `Bootstrap.SpentIsRejected` | internal/adapters/grpc/server/agent.go:197-212 | a consumed registration token is answered with a rejection, whoever presents it |
| `Bootstrap.AcceptedIsIssued` | internal/adapters/grpc/client/agent.go:25-52 | an accepted registration returns a token issued for the host's own agent |
| `Bootstrap.OtherStatusSpends` | internal/adapters/grpc/server/agent.go:63-86 | a reply that is retried means that the token has been consumed |
| `Bootstrap.HandlerMeaning` | internal/adapters/grpc/server/agent.go:63-86 | the handler rejects an unknown or expired token, then reports a taken name, and otherwise accepts |
| `Bootstrap.AttemptWithoutCall` | internal/application/dataplane/agenthost/bootstrap.go:38-60 | stored credentials are used without a call, and without a registration token nothing is asked |
| `Bootstrap.AttemptWithCall` | internal/application/dataplane/agenthost/bootstrap.go:23-76 | an accepted registration is saved, a rejected token and a taken name end the run, anything else is tried again |
| `Bootstrap.NetworkMeaning` | internal/application/dataplane/agenthost/retry.go:61-83 | a lost request does nothing, a lost reply leaves the host as it was although the request was handled, and a restart lets the host try again |
| `Bootstrap.StoredStays` | internal/application/dataplane/agenthost/bootstrap.go:45-76 | credentials once stored stay stored over every run and restart |
| `Bootstrap.EveryBootstrapSound` | internal/application/dataplane/agenthost/bootstrap.go:38-76 | under lost messages, failed writes, several hosts and restarts: saved credentials were issued for that agent, a named host's run is over with the second delivered reply, and no registration token creates two agents |
| `Bootstrap.BootstrapEndsIffNamed` | internal/application/dataplane/agenthost/bootstrap.go:23-76 | the number of delivered replies is bounded by two if and only if the host has a name |

## Left out

- Concurrency between control-plane calls: each Apply, Delete and account operation is one step, although the code checks and saves in separate transactions.
- Storage failures while reading, and records that do not decode; a lookup fails only with "not found". A failed write of a credential operation is modelled as a stop at that write.
- Reads of a reload are one step, and so are writes: the data plane lists the kinds it caches in several calls, and clears and fills its maps entry by entry. Its validation of what it has just cached is omitted; stored resources are valid.
- The remote data plane's path for events, two such channels with a stream between them, and its resync at each reconnection; the steps after shutdown. The periodic resync of the single process is modelled.
- bcrypt and SHA-256 stand for the secret itself, and generated secrets and ids are new and not empty.
- Regular expressions, glob matching, header lookup, case folding, URL and duration parsing are parameters about which nothing is assumed.
- Search and label filters of listings other than label selectors of pools; base64 page tokens; storage keys are character sequences.
- Rate limiting uses real arithmetic and non-decreasing times; rounding of floating point and nanoseconds is not modelled. Balancer weights are unbounded integers.
- Each operation reads the clock once; backoff delays between retries are not modelled.
- Login, Logout, CreateUser, Deregister, CreateRegistrationToken and Bootstrap of the accounts have a specification but no method of their own.
- The spec and domain `Validate` functions are predicates rather than loops, and error texts are constructors.
- Starting and draining servers, which happens after the critical section and outside the lock, and `Adapter.Shutdown`.
- Clearing the bootstrap token in memory is a separate write, so that a stop may fall before or after it.
- Retry-after hints and transition logging of the link state, the readiness gate, and removal of hop-by-hop headers.
- The least-bytes balancer's counters, HTTP forwarding, CONNECT tunnels, SOCKS5, metrics and tracing.
- Authorisation of administrators and the interceptor allow-lists, command-line and dashboard commands, the frontend, and generated protobuf code.
