# ClusterLink control plane: a verified model

ClusterLink connects services across clusters. A client of an *import* asks its own control plane for
permission; the control plane picks one of the import's *sources*, checks its access policies, asks the
control plane of the exporting *peer* for a short-lived token, and the dataplane then opens a tunnel with
that token. Around this path the control plane keeps Kubernetes objects in line: services and endpoint
slices for imports, leases of listening ports, the health of peers.

The project models the parts of this whose guarantees run across functions, and proves them for every
input, every run and every reachable state. Code that updates things in place is a class or a method with
loops, proved equal to a specification function; the guarantees are lemmas about those functions.

| file | what it models |
|---|---|
| `LoadBalancer.dfy`, `Egress.dfy` | selection of a source, and the retry loop of an egress request |
| `Arithmetic.dfy`, `Circle.dfy`, `Fairness.dfy` | round-robin over consecutive requests, with the 32-bit counter |
| `Policies.dfy`, `Pdp.dfy` | access policies and the two-tier decision point |
| `Ingress.dfy`, `Connection.dfy` | tokens on the exporting side, and a connection seen from both sides |
| `Reconcile.dfy`, `ControlManager.dfy` | the import, service and endpoint-slice handlers, as functions and as in-place code |
| `SliceHealing.dfy`, `SliceName.dfy`, `Installation.dfy` | copies of endpoint slices: safety over every run, and the names they rest on |
| `PortFailures.dfy`, `Orphans.dfy`, `Stranded.dfy` | where that guarantee ends: imports that are refused a port, and names that are never built |
| `Weights.dfy`, `SliceRanks.dfy`, `Settling.dfy`, `PortDebts.dfy`, `ImportSettling.dfy`, `Termination.dfy`, `Rest.dfy` | why reconciliation comes to rest, and when it does not |
| `ServiceOwnership.dfy`, `ServiceHealing.dfy` | which services and slices the handlers touch, what services forward, idempotence, and services in place over every run |
| `Ports.dfy` | the allocator of listening ports |
| `PeerMonitor.dfy` | the health monitor of a peer |
| `PodIndex.dfy`, `Naming.dfy`, `DataplaneSync.dfy`, `Operator.dfy` | pod lookup by address, names, dataplane synchronisation, operator hand-over |
| `Common.dfy` | options, names, finite sets and listings |

Peer reachability, policy verdicts and remote grants are oracles over the round and the source index;
random numbers are parameters; the clock advances by steps of any length; the cluster is a set of maps;
handlers run one at a time, for any object with an unhandled change, in any order.

## What the code turns out to do

- A load-balancing scheme that is none of the three leaves no source selected, and the retry loop then
  dereferences it (`Egress.CrashExactly`). All other results are for the three known schemes.
- The round-robin counter has 32 bits. Of two requests in a row, the second picks the cyclic successor of
  the first one's pick exactly when the counter does not wrap from that pick to the next increment, or
  wraps harmlessly: wrapping goes back by m = 2^32 mod n places on the circle, and either the m sources
  passed over once more or all the others are none that accept (`Fairness.SuccessionExactly`). With three
  accepting sources it is not harmless: `Fairness.WrapRepeatsPick` is a pair of requests that pick the same
  source. Wrapping during a request's retries does not change its pick.
- `getRandomFreePort` declares `port` anew inside its first loop (pkg/controlplane/control/port.go:72), so its
  scan starts at port 1 instead of at a random offset, as its comment says. A scan over held ports only
  ends on a held port and gives it away. `Ports.RandomLeaseKeepsInverse` says exactly when this does not
  happen, and `Ports.CrowdedBreaks` is an input where it does.
- `authorizeIngress` looks at the export's validity only after the export could not be read
  (pkg/controlplane/authz/manager.go:411-417), so an export marked invalid is granted like a valid one
  (`Ingress.ValidityIgnored`).
- A name that parses as that of a slice copy need not be one that is ever built: `clusterlink-01-a.b`
  parses as import `a`, slice `b`. Such a slice can be left behind without its import; exactly the names
  spelled as they would be built cannot (`Orphans.NeverOrphanedExactly`).
- Copies of an import that stops being a merge import stay if it is refused its port: that error ends the
  reconciliation before the copies are deleted, and a conflict is not retried
  (pkg/controlplane/control/manager.go:194-206). `PortFailures.CopiesGoExactly` is the exact condition;
  `Stranded.CopyCanBeStranded` is, for every copy, a run that comes to rest with it while another import
  holds the port, and still does after that import is gone and the port is free.
- A random lease that finds nothing free takes the last scanned port, 48126, and its holder's own lease is no
  longer on record (`Ports.HolderDisplaced`). If that import asks for any port again, it is given the port it
  believes to hold, and the next reconciliation refuses it (`ServiceOwnership.SecondReconciliationRefused`).
- A slice that takes the place of a copy in the dataplane's namespace, under the dataplane's own label, is
  taken for a dataplane slice; its handler does not put the copy back (`Installation.DisguisedStays`). At
  rest, a copy is current exactly if no such slice is in its place (`SliceHealing.CurrentExactly`).
- A merge import named like the dataplane's own service has its copies taken for dataplane slices and copied
  again, without end: once it is reconciled and a dataplane slice is there, no run is ever at rest
  (`Rest.NeverQuiet`, `Rest.HandlersNeverEnd`). Without such an import, handlers come to rest, even if ports
  are refused (`Rest.HandlersEnd`), unless an import that asks for any port finds all of them taken, which is
  retried for ever (`Rest.RetriedForever`).
- Whether some policy depends on client attributes is asked once, before the retry loop; a policy that comes
  after that decides on a client of unknown attributes (`Connection.PolicyComesMeanwhile`).
- Services of imports are put back after any change, if names of system services are kept apart
  (`ServiceHealing.ServicesHeal`), and a refusal for a service lasts only while its reason does
  (`ServiceHealing.RefusalsAreReal`). Where two imports share such a name, or an import is named like another's
  system service, a service that was deleted can stay away (`ServiceHealing.CollisionUnattended`,
  `ServiceHealing.NamesakeUnattended`).
- Ports of endpoint slices are not compared (`Installation.StalePortsStay`).

## Model

| member | source | states |
|---|---|---|
| `LoadBalancing.ChooseProgress` | pkg/controlplane/authz/loadbalancer.go:137-178 | a selection yields an index never selected before while one is left, else the head of the delayed queue; `IsDelayed` tells which; it fails only when all sources were tried and none is delayed; the measure 2(n - tried) + delayed drops by two or one; the arc behind the current index is kept |
| `LoadBalancing.AdvanceIsFresh` | pkg/controlplane/authz/loadbalancer.go:79-134 | each of the three schemes moves to an index not tried yet, whatever it tried before |
| `LoadBalancing.ScanFinds` | pkg/controlplane/authz/loadbalancer.go:79-94 | the scan of the random scheme finds an untried index wherever it starts |
| `LoadBalancing.RandomTakesNearest` | pkg/controlplane/authz/loadbalancer.go:79-94 | under the random scheme the untried index nearest to the drawn one, going up, is taken; each untried index is taken for some draw |
| `LoadBalancing.ArcGrows` | pkg/controlplane/authz/loadbalancer.go:121-127 | under round-robin the failed indices are the circular interval behind the current one, and stay so |
| `LoadBalancing.LoadBalancer.Select` | pkg/controlplane/authz/loadbalancer.go:137-178 | in-place selection equals the specification, and changes no other import's counter |
| `LoadBalancing.LoadBalancer.SelectRandom` | pkg/controlplane/authz/loadbalancer.go:79-94 | the scanning loop equals the recursive scan |
| `LoadBalancing.LoadBalancer.SelectRoundRobin` | pkg/controlplane/authz/loadbalancer.go:96-130 | every call counts once in 32 bits, from zero on first use; the first selection takes the counter modulo the number of sources, a later one steps around the circle |
| `Egress.AuthorizeEgress` | pkg/controlplane/authz/manager.go:285-360 | the retry loop terminates and its outcome, its log of attempts and the counter it leaves are those of the specification; other imports' counters stay |
| `Egress.Round` | pkg/controlplane/authz/manager.go:286-359 | one round of the loop is one step of the specification and lowers the measure |
| `Egress.RunIsTwoPasses` | pkg/controlplane/authz/manager.go:285-360 | from any state between rounds, the loop equals a simple reference: one pass over the scheme's order, then one over the postponed sources |
| `Egress.OrderIsPermutation` | pkg/controlplane/authz/loadbalancer.go:137-178 | in every scheme the first selections are a permutation of the sources |
| `Egress.RequestIsTwoPhase` | pkg/controlplane/authz/manager.go:302-307 | at most 2n selections; each source at most twice and put to the decision point at most once, exactly once if the request fails, whatever reachability does meanwhile; unreachable sources are contacted only after all were selected, in the order they were postponed |
| `Egress.FirstPassCounts` | pkg/controlplane/authz/manager.go:285-360 | the counting part of the above, from any point of the first pass |
| `Egress.FirstPassShape` | pkg/controlplane/authz/manager.go:302-307 | the two-phase part of the above, from any point of the first pass |
| `Egress.RequestTells` | pkg/controlplane/authz/manager.go:286-359 | the log is what happened, round by round: every round but the last goes on, and the last one tells the outcome, the chosen source having been granted in it |
| `Egress.RequestRounds` | pkg/controlplane/authz/manager.go:297-352 | for every request of a known scheme, on what each round found: a missing peer, a failing decision and a missing client, each with the lookups before it passed, end the request with that error, a grant with the source, and nothing else does before the sources are used up; a source is put to the policies exactly if its peer was there and reachable or late |
| `Egress.RequestDecides` | pkg/controlplane/authz/manager.go:285-360 | with lookups present and decisions fixed for the request's sources, it succeeds exactly when some source is allowed and grants a token, and returns such a source |
| `Egress.FirstPassPrefers` | pkg/controlplane/authz/manager.go:302-321 | with fixed reachability too: the first reachable acceptor in the order, else the first acceptor |
| `Egress.StaticPreference` | pkg/controlplane/authz/loadbalancer.go:132-134 | under the static scheme: the lowest-index reachable acceptor, else the lowest-index acceptor |
| `Egress.UnknownSchemeCrashes` | pkg/controlplane/authz/loadbalancer.go:159-167 | a scheme outside the three ends in a nil source unless there are no sources |
| `Egress.CrashExactly` | pkg/controlplane/authz/loadbalancer.go:159-186 | a request crashes exactly if there are sources and the scheme's text is none of the three and not empty |
| `Fairness.RoundRobinOrder` | pkg/controlplane/authz/loadbalancer.go:119-129 | a request's order is once around the circle from the bumped counter |
| `Fairness.RunCounts` | pkg/controlplane/authz/loadbalancer.go:119-119 | the counter moves once per selection of the first pass, retries included |
| `Fairness.RequestPick` | pkg/controlplane/authz/loadbalancer.go:96-130 | what a request picks and where it leaves the counter, for any counter value, if good sources always grant and the others, whatever they do, never do |
| `Fairness.RequestPicksSuccessor` | pkg/controlplane/authz/loadbalancer.go:96-130 | a request picks the cyclic successor, among the good sources, of what the counter names exactly when its first increment does not wrap, or wraps harmlessly |
| `Fairness.SuccessionExactly` | pkg/controlplane/authz/loadbalancer.go:119-129 | of two requests in a row, each in its own environment, the second picks the cyclic successor of the first one's pick exactly when the counter does not wrap up to the next increment, or wraps harmlessly |
| `Fairness.HarmlessExactly` | pkg/controlplane/authz/loadbalancer.go:129-129 | searching on from the wrapped counter finds the same source exactly if one of two arcs of the circle has no good source |
| `Fairness.RoundRobinIsFair` | tests/e2e/k8s/test_loadbalancing.go:73-95 | as many requests in a row as there are good sources use each of them exactly once, whatever the others do from round to round and from request to request, if wrapping between the requests is harmless |
| `Fairness.RowIsFairExactly` | tests/e2e/k8s/test_loadbalancing.go:73-95 | with at most 2^32 sources times good sources, the row of requests is fair exactly if wrapping after each of them but the last is harmless |
| `Fairness.FairExactly` | tests/e2e/k8s/test_loadbalancing.go:73-95 | for any number of sources: where wrapping after all requests but one is harmless, the row is fair exactly if it is after that one |
| `Fairness.OneWrap` | pkg/controlplane/authz/loadbalancer.go:119-119 | after its first wrap the counter does not wrap again within as many turns as make up 2^32 |
| `Fairness.FairBeforehand` | tests/e2e/k8s/test_loadbalancing.go:73-95 | it is fair if the counter is n times the number of requests away from 2^32, or the number of sources divides 2^32 |
| `Fairness.SteadyBehaves` | pkg/controlplane/authz/manager.go:297-352 | fixed decisions, grants and reachability are an instance, the good sources being the reachable accepting ones |
| `Fairness.CounterNamesPick` | pkg/controlplane/authz/loadbalancer.go:119-129 | a request leaves the counter naming its own pick exactly when it does not wrap while retrying, or the number of sources divides 2^32 |
| `Fairness.SchemesByName` | pkg/controlplane/authz/loadbalancer.go:159-186 | which text names which scheme, the empty one round-robin, told by what each does |
| `Fairness.WrapRepeatsPick` | pkg/controlplane/authz/loadbalancer.go:119-129 | with three good sources, two requests in a row across the wrap both pick source 0 |
| `Circle.HitsDistinct` | pkg/controlplane/authz/loadbalancer.go:121-129 | walking around a circle, no good index repeats before all were seen |
| `Circle.SameFirst` | pkg/controlplane/authz/loadbalancer.go:121-129 | starting m places further on finds the same good index exactly if one of the two arcs between the starting places is bare |
| `Circle.OneGapCloses` | pkg/controlplane/authz/loadbalancer.go:121-129 | a listing of all good indices that steps to the successor everywhere but perhaps once does so there too |
| `Policies.ValidSpecMatches` | pkg/controlplane/authz/connectivitypdp/connectivity_pdp.go:309-350 | a validated policy never fails to evaluate and matches exactly if some `from` and some `to` selector select the two workloads |
| `Policies.ListMatchesMeaning` | pkg/controlplane/authz/connectivitypdp/connectivity_pdp.go:328-339 | the early-return scan over a workload list equals an existential |
| `Policies.IndifferentToClient` | pkg/controlplane/authz/connectivitypdp/connectivity_pdp.go:275-290 | a policy whose `from` has no requirement cannot tell two clients apart |
| `Policies.RequirementsMean` | pkg/controlplane/authz/connectivitypdp/connectivity_pdp.go:342-350 | what the four operators mean, told by the labels that would do instead |
| `Policies.LabelsMean` | pkg/controlplane/authz/connectivitypdp/connectivity_pdp.go:342-350 | labels select exactly the workloads that giving them the labels would not change |
| `Policies.ValidExactly` | pkg/apis/clusterlink.net/v1alpha1/accesspolicy.go:107-143 | exactly which policies are accepted |
| `Policies.DependsExactly` | pkg/controlplane/authz/connectivitypdp/connectivity_pdp.go:275-288 | a valid policy depends on the client exactly unless every selector of its `from` is empty |
| `Pdp.DecisionTable` | pkg/controlplane/authz/connectivitypdp/connectivity_pdp.go:139-163 | the decision, by privileged deny, privileged allow, and the deny and allow policies of the namespace, each told by the selectors that hit |
| `Pdp.Noninterference` | pkg/controlplane/authz/connectivitypdp/connectivity_pdp.go:106-109 | in every state where no policy depends on client attributes, any two clients get the same decision, for all destinations and namespaces |
| `Pdp.PDP.Decide` | pkg/controlplane/authz/connectivitypdp/connectivity_pdp.go:139-163 | never fails; allows exactly by the precedence privileged deny, privileged allow, namespace deny, namespace allow, deny; names a policy that decides so; in whatever order the maps are visited |
| `Pdp.DecideInMap` | pkg/controlplane/authz/connectivitypdp/connectivity_pdp.go:252-272 | a map of policies of one action yields a policy in scope that matches, or nothing if none does |
| `Pdp.PolicyTier.Decide` | pkg/controlplane/authz/connectivitypdp/connectivity_pdp.go:231-249 | deny policies of a tier win over its allow policies |
| `Pdp.PDP.AddOrUpdatePolicy` | pkg/controlplane/authz/connectivitypdp/connectivity_pdp.go:115-127 | the four maps stand for one last-writer map per tier; a rejected policy leaves the old one in force |
| `Pdp.PDP.DeletePolicy` | pkg/controlplane/authz/connectivitypdp/connectivity_pdp.go:130-136 | removes the name from its tier, and reports whether it was there |
| `Pdp.PolicyTier.AddPolicy` | pkg/controlplane/authz/connectivitypdp/connectivity_pdp.go:189-200 | the name moves between the deny and the allow map with its action; the two stay disjoint |
| `Pdp.PolicyTier.DeletePolicy` | pkg/controlplane/authz/connectivitypdp/connectivity_pdp.go:203-228 | removes the name from whichever map holds it |
| `Pdp.PDP.DependsOnClientAttrs` | pkg/controlplane/authz/connectivitypdp/connectivity_pdp.go:106-109 | true exactly when some stored policy has a requirement on the client |
| `Pdp.LastWriterWins` | pkg/controlplane/authz/connectivitypdp/connectivity_pdp.go:115-136 | after any run a tier holds, for a name, what the last accepted operation on it said |
| `Pdp.ReplayAccepted` | pkg/controlplane/authz/connectivitypdp/connectivity_pdp.go:115-136 | after any run every stored policy is valid |
| `Pdp.AddIsMonotone` | pkg/controlplane/authz/connectivitypdp/connectivity_pdp.go:139-163 | under an unused name a deny policy only turns allow into deny, an allow policy only deny into allow |
| `Pdp.RegularIsLocal` | pkg/controlplane/authz/connectivitypdp/connectivity_pdp.go:231-272 | no change to a regular policy touches a privileged match or another namespace's decisions |
| `Pdp.DistinctOpsCommute` | pkg/controlplane/authz/connectivitypdp/connectivity_pdp.go:115-136 | operations on different tiers or names commute |
| `Ingress.TokenSafety` | pkg/controlplane/authz/manager.go:364-469 | over all interleavings, a CONNECT is let through only on a token issued less than five seconds before under the same key, while the export existed and the policies allowed the client, and it is routed to that same export's cluster |
| `Ingress.TokenWorks` | pkg/controlplane/authz/manager.go:364-394 | conversely an issued token opens the connection exactly while the key is unchanged and the whole second of its expiry has not come |
| `Ingress.Provenance` | pkg/controlplane/authz/manager.go:441-465 | every token known was issued by an earlier authorization request of the run |
| `Ingress.GuardIsSound` | pkg/controlplane/authz/manager.go:421-426 | a grant to a client without attributes is one the policies would give to every client |
| `Ingress.GrantedExactly` | pkg/controlplane/authz/manager.go:397-469 | a token is granted exactly if the export is there, a key is set, the policies allow the client, and the client has attributes or no stored policy depends on them; it is for that export, under that key, for five seconds |
| `Ingress.AuthorizationAnswered` | pkg/controlplane/authz/server.go:179-223 | what a POST on the authorization path is answered, and exactly when: the token, 403, 404, or 500 |
| `Ingress.ConnectAnswered` | pkg/controlplane/authz/server.go:148-176 | what a CONNECT is answered, and exactly when: 400 without a bearer token, the cluster if the token verifies, else 403 |
| `Ingress.EventsTakeEffect` | pkg/controlplane/authz/manager.go:397-469 | dropping and putting an export, setting a key and five seconds passing each act on the next request |
| `Ingress.ValidityIgnored` | pkg/controlplane/authz/manager.go:410-419 | flipping an export's validity changes no answer |
| `Connection.BothSidesAllow` | pkg/controlplane/authz/manager.go:297-352 | a successful request names a source that, in its last round, the local policies allowed and whose peer granted a token for the service with the name and namespace the source gives its export, or else the import's own; and the exporting peer's policies allowed the client |
| `Connection.RoundsOfSite` | pkg/controlplane/authz/manager.go:297-352 | every round of every request in terms of both sites: put off exactly if unreachable in the first pass, denied exactly if the local policies of that round do not allow the client in the import's namespace, refused or granted exactly as the peer answers |
| `Connection.RejectedExactly` | pkg/controlplane/authz/manager.go:275-278 | a request is turned away at the start exactly if the client has no attributes and some stored policy depends on them |
| `Connection.UnknownClientServedSoundly` | pkg/controlplane/authz/manager.go:275-278 | a grant to a client without attributes is one the exporting peer's policies give to every client, and so do the local ones of the round that decided, unless one that depends on client attributes has come since the start |
| `Connection.PolicyComesMeanwhile` | pkg/controlplane/authz/manager.go:275-278 | a request with policies that come after the check: it succeeds for a client of unknown attributes while, in the round that decided, a client with a certain label is not allowed |
| `Connection.GrantOpensTunnel` | pkg/controlplane/authz/manager.go:331-346 | the token that made a request succeed opens a connection, at any later time exactly while the key is unchanged and the token has not expired, to the cluster of the source's export name and namespace, each the import's own where the source gives none |
| `SliceName.ParseGet` | pkg/controlplane/control/manager.go:114-135 | parsing a built name gives back both parts exactly when both are non-empty, dashes or not |
| `SliceName.GetInjective` | pkg/controlplane/control/manager.go:114-118 | different pairs have different names |
| `SliceName.GetParse` | pkg/controlplane/control/manager.go:120-135 | building undoes parsing exactly when the length is in plain decimal and a dash follows the import |
| `SliceName.NonCanonicalParses` | pkg/controlplane/control/manager.go:120-135 | a name that parses and is never built |
| `SliceName.AtoiPrint` | pkg/controlplane/control/manager.go:126-126 | reading a printed number gives it back |
| `SliceHealing.RunSafe` | pkg/controlplane/control/manager.go:448-508 | over every interleaving of outside writes and handlers: every canonically named copy is labelled and has a live merge import (or one that is there and was refused a port) and an existing dataplane slice, and every merge import reconciled without error has a current copy of every dataplane slice (or a slice labelled as the dataplane's own in its place), up to objects whose handler is still due |
| `SliceHealing.QuietMeansConsistent` | pkg/controlplane/control/manager.go:665-846 | once nothing is due, every canonically named copy has its dataplane slice and its import, which is merged or was refused a port, and every merge import reconciled without error has current copies, up to slices labelled as the dataplane's own in its namespace; for any codec with the round trip |
| `SliceHealing.CurrentExactly` | pkg/controlplane/control/manager.go:448-470 | once nothing is due, the copy of a dataplane slice for a merge import reconciled without error, and not named like the dataplane's service, is current exactly if no slice labelled as the dataplane's own is in its place |
| `SliceHealing.CopyHolds` | pkg/controlplane/control/manager.go:727-786 | at rest, in every run, the slice in the place of a copy has the dataplane slice's endpoints one by one (addresses and the three conditions), is for IPv4, and has exactly its three labels |
| `SliceHealing.HandlerMakesCopies` | pkg/controlplane/control/manager.go:448-470 | the handler of a dataplane slice makes each missing copy: all of its endpoints, the three labels, and the import's target port as its one port |
| `SliceHealing.AddImportMakesCopies` | pkg/controlplane/control/manager.go:788-824 | so does reconciling a merge import, unless it fails |
| `SliceHealing.HandleSliceSafe` | pkg/controlplane/control/manager.go:448-508 | the slice handler keeps the invariant |
| `SliceHealing.HandleImportSafe` | pkg/controlplane/control/manager.go:155-295 | the import handler keeps the invariant, for live and deleted imports |
| `SliceHealing.HandleServiceSafe` | pkg/controlplane/control/manager.go:523-556 | the service handler keeps the invariant |
| `SliceHealing.CheckSettles` | pkg/controlplane/control/manager.go:665-725 | checking a slice leaves it gone, not a copy, due again, or with everything a copy needs |
| `SliceHealing.CheckHeals` | pkg/controlplane/control/manager.go:665-786 | checking a copy's name puts the copy in place |
| `SliceHealing.BuildWorks` | pkg/controlplane/control/manager.go:201-269 | past the port allocation, a merge import gets all its copies and another import loses all of its copies |
| `Installation.DeployedConsistent` | pkg/controlplane/control/manager.go:114-135 | the consistency result for the names and labels the system is deployed with |
| `Installation.DisguisedStays` | pkg/controlplane/control/manager.go:448-470 | the handler of a slice under a copy's name but with the dataplane's label leaves it as it is |
| `PortFailures.CopiesGoExactly` | pkg/controlplane/control/manager.go:201-223 | reconciling an import that is not merged leaves it without copies exactly if it had none or its port is available |
| `PortFailures.AllocateExactly` | pkg/controlplane/control/manager.go:558-580 | the allocation succeeds exactly if the port is free or the import's own, or, for any port, not all are taken |
| `PortFailures.ServedMeansNoOrphans` | pkg/controlplane/control/manager.go:665-846 | in every run that always finds ports available, once nothing is due a canonically named copy has a live merge import and an existing dataplane slice |
| `Stranded.CopyCanBeStranded` | pkg/controlplane/control/manager.go:194-206 | for every copy, runs that come to rest with it although its import is not merged: while another import holds the port, and after the port has become free |
| `Installation.NonCanonicalNotHealed` | pkg/controlplane/control/manager.go:665-725 | the handler of a slice with a parsing but never built name leaves the slice as it is |
| `Installation.NonCanonicalSurvivesImport` | pkg/controlplane/control/manager.go:826-846 | nor does the deletion of its import delete it |
| `Installation.StalePortsStay` | pkg/controlplane/control/manager.go:979-1021 | a copy that differs in its ports only is not updated |
| `Orphans.NeverOrphanedExactly` | pkg/controlplane/control/manager.go:120-135 | in the deployed system, over all runs that find ports available, a name that parses is never left behind without its merge import or dataplane slice exactly when it is spelled as it would be built |
| `Orphans.LeftBehind` | pkg/controlplane/control/manager.go:665-725 | for every other name that parses there is such a run of writes and handlers that comes to rest with the slice and without its import |
| `Orphans.CanonicalNeverOrphaned` | pkg/controlplane/control/manager.go:665-725 | no run that finds ports available leaves a canonical name behind |
| `Orphans.ZeroPaddedIsLeftBehind` | pkg/controlplane/control/manager.go:126-135 | a concrete name that is left behind |
| `Rest.HandlersEnd` | pkg/controlplane/control/manager.go:155-846 | from any world without a merge import named like the dataplane's service there is a number of handler steps that no run exceeds, in whatever order handlers run, whatever ports are drawn and whichever are refused, unless an import finds all ports taken |
| `Rest.RestIsReached` | pkg/controlplane/control/manager.go:155-846 | from there handlers can be run until nothing is due but what finds all ports taken |
| `Rest.EventuallyConsistent` | pkg/controlplane/control/manager.go:155-846 | for the deployed system, after any run: bounded further handling, a rest that can be reached, and consistent copies whenever nothing is due |
| `Rest.HandlersNeverEnd` | pkg/controlplane/control/manager.go:448-470 | with a merge import named like the dataplane's service, whatever other imports there are, and the longest-named dataplane slice due, there is a run of handlers of any length |
| `Rest.NeverQuiet` | pkg/controlplane/control/manager.go:448-470 | in every legal run, while that import is merged and reconciled without error and a dataplane slice is there, something is due |
| `Rest.RetriedForever` | pkg/controlplane/control/port.go:108-111 | an import that finds all ports taken is retried for any number of steps |
| `Rest.SpiralStarts` | pkg/controlplane/control/manager.go:448-470 | one write of the import and one of a dataplane slice lead there |
| `Rest.DeployedNeverEnds` | pkg/controlplane/control/manager.go:114-118 | the same for the names the system is deployed with |
| `Rest.StepDown` | pkg/controlplane/control/manager.go:155-846 | every handler step lowers one number: ports to give out, leases to end, move and record, services to delete, create and update, statuses to record, slices to mend and objects due, in this order of weight |
| `Termination.StepSettles` | pkg/controlplane/control/manager.go:155-846 | a handler step writes nothing and only crosses its object off, or lowers one of those counts and none of more weight |
| `Termination.AddImportSettles` | pkg/controlplane/control/manager.go:155-270 | so does reconciling an import, given or refused its port, unless it finds all ports taken |
| `PortDebts.AssignPays` | pkg/controlplane/control/port.go:134-152 | giving an import the port it asks for changes nothing, or leaves fewer leases to move, or fewer to record, and none more to end |
| `PortFailures.AllocateRefuses` | pkg/controlplane/control/manager.go:558-580 | whether and why a port is refused can be told from the leases |
| `Termination.DeleteImportSettles` | pkg/controlplane/control/manager.go:273-295 | so does cleaning up after an import |
| `ImportSettling.AddServicesTidies` | pkg/controlplane/control/manager.go:582-628 | adding services touches none, or leaves fewer to create, or as many to create and fewer to update, and no more to delete |
| `ImportSettling.BuildVerdict` | pkg/controlplane/control/manager.go:582-628 | the failure of a reconciliation past its port can be told from the services alone |
| `Settling.HandleSliceLighter` | pkg/controlplane/control/manager.go:448-508 | the slice handler only crosses its slice off, or makes the slices lighter: a change to a slice outweighs any to slices with longer names, copies of it among them |
| `Settling.GoneLighter` | pkg/controlplane/control/manager.go:473-508 | also where a deleted copy is made anew and the copies of it are dropped in one step |
| `SliceRanks.ImprovementCounts` | pkg/controlplane/control/manager.go:665-786 | if every changed slice whose source is unchanged comes nearer to what is wanted, the weighted total falls |
| `ControlManager.Manager.HandleEndpointSlice` | pkg/controlplane/control/manager.go:448-508 | the in-place handler, whatever order its listings come in, equals the specification step |
| `ControlManager.Manager.CheckEndpointSlice` | pkg/controlplane/control/manager.go:665-725 | the in-place check equals the specification |
| `ControlManager.Manager.CheckImportEndpointSlice` | pkg/controlplane/control/manager.go:727-786 | creates the copy, updates it if it differs, and writes nothing otherwise |
| `ControlManager.Manager.CheckPairs` | pkg/controlplane/control/manager.go:814-821 | checking copies one after the other comes to applying all that are missing or differ at once |
| `ControlManager.Manager.DeleteSlices` | pkg/controlplane/control/manager.go:836-843 | deleting one after the other comes to removing those present at once |
| `ControlManager.CheckListIsApply` | pkg/controlplane/control/manager.go:814-821 | the order of the checks does not matter |
| `ControlManager.DropListIsDropSlices` | pkg/controlplane/control/manager.go:836-843 | the order of the deletions does not matter |
| `ControlManager.Manager.AddImportEndpointSlices` | pkg/controlplane/control/manager.go:788-824 | fails without the import's service, else copies every dataplane slice |
| `ControlManager.Manager.DeleteImportEndpointSlices` | pkg/controlplane/control/manager.go:826-846 | removes exactly the slices labelled as this import's copies |
| `ControlManager.Manager.AddImport` | pkg/controlplane/control/manager.go:155-270 | the in-place reconciliation equals the specification step |
| `ControlManager.Manager.DeleteImport` | pkg/controlplane/control/manager.go:273-295 | the in-place clean-up equals the specification step |
| `ControlManager.Manager.AddImportService` | pkg/controlplane/control/manager.go:582-628 | creates an absent service, updates an own one that changed, and refuses any other |
| `ControlManager.Manager.DeleteImportService` | pkg/controlplane/control/manager.go:630-663 | deletes a service only if its labels name the import |
| `ControlManager.Manager.AllocateTargetPort` | pkg/controlplane/control/manager.go:558-580 | leases the port, and writes it to an import that had none |
| `ControlManager.Manager.UpdateStatus` | pkg/controlplane/control/manager.go:163-199 | records the outcome, writing the status only if it changed |
| `ServiceOwnership.AddImportRespects` | pkg/controlplane/control/manager.go:582-628 | reconciling an import leaves every service it does not own as it was; what it creates or changes it owns, even if system-service names collide |
| `ServiceOwnership.DeleteImportRespects` | pkg/controlplane/control/manager.go:630-663 | the same of deleting an import |
| `ServiceOwnership.RunSparesForeign` | pkg/controlplane/control/manager.go:887-901 | over every run, a service that is not labelled as managed for an import changes only by writes from outside |
| `ServiceOwnership.RunSparesSlices` | pkg/controlplane/control/manager.go:448-508 | over every run, a slice not labelled as managed and not named like a copy changes only by writes from outside |
| `ServiceOwnership.ReconciledForwards` | pkg/controlplane/control/manager.go:230-269 | a reconciled import that is not merged has its system service, a ClusterIP listening on the import's port and forwarding to its target port at the dataplane's pods, and outside the system namespace a service of its own naming that one's host |
| `ServiceOwnership.StatusTells` | pkg/controlplane/control/manager.go:163-199 | the recorded conditions of port and service tell whether and why the reconciliation failed |
| `ServiceOwnership.DeletedLeavesNothing` | pkg/controlplane/control/manager.go:273-295 | after a deletion there is no service owned by the import under its keys, no lease and no recorded failure |
| `ServiceOwnership.DeletedCopiesGone` | pkg/controlplane/control/manager.go:826-846 | a deletion removes exactly the slices labelled as copies for the import in its namespace |
| `ServiceHealing.ServicesHeal` | pkg/controlplane/control/manager.go:523-556 | over every run from an empty cluster in which system-service names are kept apart: once nothing is due, every import that is not merged and did not fail has its services, with their ports, whoever deleted or changed them |
| `ServiceHealing.RefusalsAreReal` | pkg/controlplane/control/manager.go:582-628 | in every such run, once nothing is due, a recorded refusal is for a reason that is still there: a merge import has no service, or a service under one of the import's keys is not labelled as its own |
| `ServiceHealing.RunAttends` | pkg/controlplane/control/manager.go:523-556 | the invariant behind both: the services are in place or the reason of the refusal is, or the import or a handler that leads back to it is due |
| `ServiceHealing.CollisionUnattended` | pkg/controlplane/control/manager.go:539-555 | why names are kept apart: with one system-service name for two imports, the handler turns to the one recorded last only |
| `ServiceHealing.NamesakeUnattended` | pkg/controlplane/control/manager.go:523-533 | and where an import is named like the system service of another and is refused its port, the handler ends there |
| `ServiceOwnership.AddImportIdempotent` | pkg/controlplane/control/manager.go:155-270 | after a successful reconciliation of an import that is not merged, an immediate second one changes and writes nothing exactly if the import asked for a given port, or held none, or the port it held is recorded as its own |
| `ServiceOwnership.SecondReconciliationRefused` | pkg/controlplane/control/manager.go:558-580 | after a random lease that found nothing free, the import whose port it took, asking for any port, is first given that port and then refused it |
| `Ports.RunKeepsInverse` | pkg/controlplane/control/port.go:95-165 | over every run of leases and releases whose random leases each have a held port, a free draw or a free scanned port, the two maps stay each other's inverse without port 0, and a name not operated on keeps its port |
| `Ports.FewKeepInverse` | pkg/controlplane/control/port.go:95-165 | so they do over every run with fewer than portCount-2 ports held at each random lease |
| `Ports.RandomLeaseKeepsInverse` | pkg/controlplane/control/port.go:108-131 | exactly when a random lease keeps them inverse: all ports taken, the name holds one, a draw was free, or one of the scanned ports is free |
| `Ports.RandomLeaseKeepsInverseAlways` | pkg/controlplane/control/port.go:108-131 | exactly when it does so whatever is drawn |
| `Ports.RandomFreeIsFree` | pkg/controlplane/control/port.go:67-92 | exactly when the port found is free; it is never 0 |
| `Ports.FewLeasesLeaveRoom` | pkg/controlplane/control/port.go:80-89 | with fewer than portCount-2 leases one scanned port is free, by pigeonhole |
| `Ports.FirstFreeExactly` | pkg/controlplane/control/port.go:71-77 | the tries give the first drawn port that is free |
| `Ports.AnyPortCanBeDrawn` | pkg/controlplane/control/port.go:71-77 | every free port from 1024 up can be drawn |
| `Ports.ScanExactly` | pkg/controlplane/control/port.go:80-91 | if no draw is free, the scan gives the lowest free port up to 48126, else 48126 itself |
| `Ports.LeaseRefused` | pkg/controlplane/control/port.go:108-152 | exactly when and why a lease is not granted; then nothing changes |
| `Ports.ReleaseFrees` | pkg/controlplane/control/port.go:155-165 | a release frees the name's port and touches no other lease |
| `Ports.LeaseGives` | pkg/controlplane/control/port.go:95-152 | a granted lease is the port asked for, or for port 0 the held port or a free one |
| `Ports.LeaseAgain` | pkg/controlplane/control/port.go:113-151 | leasing again changes nothing |
| `Ports.LeaseSettles` | pkg/controlplane/control/port.go:95-152 | asking for the port just granted changes nothing, exactly unless the name was given back a port that is not recorded as its own |
| `Ports.HolderDisplaced` | pkg/controlplane/control/port.go:108-131 | a random lease that finds nothing free takes the last scanned port, whose holder keeps believing in it while the port is recorded as the new name's |
| `Ports.CrowdedBreaks` | pkg/controlplane/control/port.go:69-91 | with ports 1 to portCount-2 held, a random lease whose draws miss takes a port from its holder |
| `Ports.PortManager.GetRandomFreePort` | pkg/controlplane/control/port.go:67-92 | the two loops compute the specified search |
| `Ports.PortManager.Lease` | pkg/controlplane/control/port.go:95-105 | the in-place lease equals the specification |
| `Ports.PortManager.LeaseWithRandomPort` | pkg/controlplane/control/port.go:108-131 | the same of a lease of any port |
| `Ports.PortManager.LeaseWithSpecificPort` | pkg/controlplane/control/port.go:134-152 | the same of a lease of a given port |
| `Ports.PortManager.Release` | pkg/controlplane/control/port.go:155-165 | both maps forget the name |
| `PeerMonitoring.PeerMonitor.Start` | pkg/controlplane/control/peer.go:102-170 | for every sequence of heartbeats the loop with its strike counter publishes what the history says: a change exactly when the last five (if reachable) or three (if not) heartbeats since the previous change all disagree, the first change needing one |
| `PeerMonitoring.PublishedAlternates` | pkg/controlplane/control/peer.go:146-165 | published statuses alternate, the first contradicting the initial one |
| `PeerMonitoring.FlipBound` | pkg/controlplane/control/peer.go:139-157 | N heartbeats give at most 2 + 2 floor((N-1)/8) changes |
| `PeerMonitoring.Beat` | pkg/controlplane/control/peer.go:124-158 | one heartbeat keeps the loop's variables in step with the history |
| `PeerMonitoring.StrikesDecide` | pkg/controlplane/control/peer.go:126-139 | the strike counter reaches n exactly when the last n heartbeats disagree |
| `PeerMonitoring.ChangesExactly` | pkg/controlplane/control/peer.go:108-158 | exactly when the status changes: with the first heartbeat that contradicts the initial status, from reachable with the fifth failure in a row since the last change, from unreachable with the third success |
| `PodIndexing.LookupMeaning` | pkg/controlplane/authz/manager.go:213-223 | after any run a lookup returns the latest information of the pod that last reported the address as its own, or nothing if that pod was deleted since |
| `PodIndexing.IndexAgreesWithHistory` | pkg/controlplane/authz/manager.go:157-187 | both maps say what the history of events says |
| `PodIndexing.IndexClosed` | pkg/controlplane/authz/manager.go:157-187 | no address leads to a missing pod |
| `PodIndexing.LateDeleteHarmless` | pkg/controlplane/authz/manager.go:157-167 | deleting a former holder does not take the address from its new holder |
| `PodIndexing.HostAddressIgnored` | pkg/controlplane/authz/manager.go:181-186 | an address a pod shares with its host is left as it is |
| `PodIndexing.PodIndex.AddPod` | pkg/controlplane/authz/manager.go:170-187 | the in-place update equals the step of the specification |
| `PodIndexing.PodIndex.DeletePod` | pkg/controlplane/authz/manager.go:157-167 | so does the loop that deletes while iterating |
| `PodIndexing.PodIndex.GetPodInfoByIP` | pkg/controlplane/authz/manager.go:213-223 | the two-step lookup |
| `Naming.ListenerNameRoundTrip` | pkg/dataplane/server/listener.go:94-110 | building, trimming and splitting a listener name gives back namespace and name exactly when the namespace has no slash |
| `Naming.ClusterNamesDistinct` | pkg/controlplane/api/xds.go:46-59 | export and peer cluster names never collide, and different exports in slash-free namespaces have different names |
| `DataplaneSync.ExportRouteIsItsOwn` | pkg/controlplane/xds/manager.go:56-137 | after any run of peer and export changes an export's cluster is what the last change of that export made it |
| `DataplaneSync.PeerRouteIsItsOwn` | pkg/controlplane/xds/manager.go:56-108 | the same of a peer's cluster |
| `DataplaneSync.Dataplane.HandleClusters` | pkg/dataplane/client/fetcher.go:54-80 | after a decodable fetch the clusters are exactly the fetched ones with their fetched values; after a faulty one, what precedes the fault was added and nothing removed |
| `DataplaneSync.Dataplane.HandleListeners` | pkg/dataplane/client/fetcher.go:82-108 | the same of listeners: trimmed names and fetched sockets |
| `DataplaneSync.LatestMeaning` | pkg/dataplane/client/fetcher.go:59-69 | of resources with one key the last counts |
| `DataplaneSync.PlaceAllMeaning` | pkg/dataplane/server/dataplane.go:102-119 | keeping a listener whose socket did not change still ends with the fetched sockets |
| `DataplaneSync.ListenerKept` | pkg/dataplane/server/dataplane.go:102-119 | a listener fetched with the socket it has stays the same listener; any other is one of those fetched |
| `DataplaneSync.Dataplane.AddListener` | pkg/dataplane/server/dataplane.go:102-119 | a listener is replaced only if its socket changed |
| `Operator.HandOver` | pkg/operator/controller/instance_controller.go:132-147 | deleting an owner passes the namespace to the earliest-created remaining instance, which is deployed, or frees it if none remains, and touches no other namespace; only instances under deletion disappear |
| `Operator.DeployedExactly` | pkg/operator/controller/instance_controller.go:119-175 | what is deployed: an instance without a rival, once; for one under deletion the instance its namespace passes to, if one remains; nothing for a missing or blocked one |
| `Operator.OwnershipIsKept` | pkg/operator/controller/instance_controller.go:119-147 | a reconciliation takes a namespace from its owner only by that owner's deletion |
| `Operator.ReconcileKeeps` | pkg/operator/controller/instance_controller.go:119-175 | owners stay stored instances of their namespace; components are applied at most once, and for the registered owner |
| `Operator.RunKeepsOwner` | pkg/operator/controller/instance_controller.go:119-147 | over every run an owner that is not deleted stays the owner |
| `Operator.EarliestMeaning` | pkg/operator/controller/instance_controller.go:906-919 | the minimum search finds an instance of the namespace created no later than any other, or there is none |
| `Operator.EarliestIsFirst` | pkg/operator/controller/instance_controller.go:906-919 | among equals it is the first one listed |
| `Operator.InstanceReconciler.Reconcile` | pkg/operator/controller/instance_controller.go:107-147 | the in-place reconciler terminates, by the number of stored instances, and equals the specification |
| `Operator.InstanceReconciler.TriggerAnotherInstance` | pkg/operator/controller/instance_controller.go:899-925 | the same of the call that reconciles the next instance |

## Left out

- The Kubernetes client, controller runtime, gRPC, TLS and Envoy: maps, steps and oracles stand for them. API calls succeed or report not found; other errors, cached stale reads and interleavings inside one handler are not modelled.
- The digest in the name of a system service (pkg/controlplane/control/manager.go:903-912): names are any function of the import, and where a result needs them distinct it says so.
- Signatures: a token text stands for the claims it was signed over, and only issued texts verify.
- Two requests at work on one round-robin counter at the same time; fairness is about consecutive requests.
- Progress while all ports are taken: an import that asks for any port is then retried without end, and the results on coming to rest exclude such steps.
- Exports, heartbeat labels, the handling of the JWK secret (pkg/controlplane/control/manager.go:395-445) and how the attributes of a client or an export are put together: any description of them will do.
- Syntax checks on label keys and values in selectors; the operators and the number of their values are modelled.
- `policyTier.getPolicies` (pkg/controlplane/authz/connectivitypdp/connectivity_pdp.go:173-180), which inserts the allow policies into the deny map it returns and so is no pure read.
- The removal of entries from `serviceToImport` (pkg/controlplane/control/manager.go:656-660), whose condition cannot hold there; entries are only added.
- The release of a port when writing it to the import fails (pkg/controlplane/control/manager.go:573-576), as writes succeed.
- The 16-bit width of ports, and strings as bytes: ports are natural numbers and lengths count characters, which agree for Kubernetes names.
- Listener goroutines and their end channels, status retries and restarts of peer monitors, operator restarts, resource construction and status texts, certificates, command line, deployment templates.
- The text of the policy name in a decision: the name itself is kept.
