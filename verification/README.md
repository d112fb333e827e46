# Verified model of the Gateway API controller for OpenStack Octavia

This project models, in Dafny, the part of the controller that decides what to
change in OpenStack and when it may do so, and proves what those decisions add
up to over whole runs.

The cloud is one explicit store: maps of load balancers, listeners, Floating
IPs, pools, members, monitors, L7 policies and L7 rules. Every resource is filed
under its true parent, and separately carries what the API reports about its
parent, its project and its tags. A provider call observes the tree, validates
all of it, builds a plan and executes only the first step; the next call starts
again from observation.

| file | what it holds |
|---|---|
| `Order`, `Ownership`, `Octavia` | sorting keys, the questions asked of an identity, the store and its list calls |
| `RouteModel` | compilation of a path match into L7 policies and rules, the desired route |
| `RouteTree`, `RoutePlan`, `RouteSteps` | observation of a route graph, ensure plan, execution of one mutation |
| `PolicyViews`, `RouteProgress`, `RouteHead`, `RouteConvergence` | why re-planning terminates in the desired state |
| `RouteDeletion`, `GatewayTree`, `GatewayDeletion`, `Pruning` | deletion plans of a route and of a whole Gateway, and what whole deletions leave |
| `RouteTraffic`, `GatewayTraffic` | which requests the enabled policies route during any run, and what a Gateway deletion does to them |
| `Provider` | the four provider operations, as a class over the store |
| `Isolation`, `TagIsolation`, `Redirects`, `AdminGating` | ownership isolation for any identity and for the written tags, redirect targets, admin-state gating |
| `SingleWrite`, `Faultless` | one write per call, and exactly when a call is refused |
| `RouteService`, `GatewayService`, `EndToEnd` | EnsureRoute and EnsureGateway over whole runs, apart and interleaved from an empty cloud |
| `RouteContents`, `GatewayContents` | what a Ready route and a Ready Gateway look like in the cloud, field by field |
| `Coordination` | the per-Gateway lock |
| `Kube`, `GatewayAuthority`, `Lifecycle` | Kubernetes objects, Gateway snapshots, the life of a Gateway |
| `RouteBinding`, `RouteSelection`, `RouteAuthority` | route binding, slot selection, route snapshots |
| `RouteMeaning`, `RouteConditions` | what an HTTPRoute means for traffic, and its decisions condition by condition |
| `OwnershipTags` | tags and descriptions that carry an identity |
| `AuditRecords`, `Audit`, `AuditBindings`, `AuditVerdicts` | matching against durable bindings, ownership audit, what a matched chain is bound to, what every verdict means |
| `Backends`, `Jitter` | NodePort members and event filters, requeue arithmetic |

Assumptions, where they are used: canonicalisation of IP addresses is idempotent
and `address:port` texts of canonical endpoints are distinct (`LawfulNet`);
base64url is injective with its usual length, and digests have their fixed length
(`LawfulCodec`); two given digest inputs do not collide; the cloud gives new
resources IDs that nothing mentions yet (`Fresh`) and no listener has an empty ID; a
new virtual IP port has no Floating IP; a policy redirects only to a pool of its own
load balancer at the start of a run, as Octavia enforces (`RedirectsLocal`, which
every operation keeps: `Redirects.OperationKeepsRedirects`);
the API server changes a specification only together with its generation and a
resource version with every write; at most one reconciliation per Gateway runs at
a time. SHA-256, FNV, base64url and address parsing are function parameters.

Three statements suggested by the code hold only under a condition, which is proved
exactly. A Ready route snapshot excludes a deleting cleanup exactly when
the route is not being deleted (`RouteAuthority.ReadyMeetsCleanupIff`, with a
concrete state in `RouteAuthority.DeletingRouteExample`); the controller only asks
to ensure routes that are not being deleted. Tags determine the identity up to the
controller version, and up to the project when one of two identities has none
(`OwnershipTags.ShareTagsIff`); the provider itself refuses identities without a
project. A Gateway deletion leaves every enabled policy alone exactly when all
policies beneath the load balancer are disabled before it starts
(`GatewayTraffic.QuietDeletionIff`); otherwise it removes rules of an enabled policy,
and `GatewayTraffic.DeletionMisroutes` gives a store and a request that is then
routed although the route rejects it.

## Model

| member | source | states |
|---|---|---|
| RouteModel.PathCompilation | internal/cloud/openstack/graph/route.go:227-246 | some compiled policy accepts an absolute path if and only if the Gateway API definition of Exact or element-wise PathPrefix does |
| RouteModel.PoliciesDisjoint | internal/cloud/openstack/graph/route.go:227-246 | the two policies of one prefix never accept the same path |
| RouteModel.PrefixStopsAtLabel | internal/cloud/openstack/graph/route.go:235-246 | a prefix does not match a path that only extends its last label, whatever trailing slashes it has |
| RouteModel.SplitPrefix | internal/cloud/openstack/graph/route.go:235-246 | the labels of one path begin those of another exactly when it is equal or continues after a slash |
| RouteModel.DesiredForOk | internal/cloud/openstack/graph/route.go:149-225 | the desired route holds exactly the canonical endpoints, each once, the configured health path or "/", and the compiled policies |
| RouteModel.BuildDesiredRoute | internal/cloud/openstack/graph/route.go:149-225 | the loop over members and the sort compute the specified desired route, or refuse an invalid specification |
| RouteContents.SpecExactly | internal/cloud/openstack/graph/route.go:149-225 | a specification is refused exactly for a blank provider or subnet, a port outside 1 to 65535, no or unparsable members, another path type, or a relative health path |
| RouteTree.ObserveRouteGraph | internal/cloud/openstack/graph/route_graph.go:145-190 | observation succeeds exactly when every resource of the tree passes its project, identity and parent checks and every logical resource exists once, and then returns the sorted tree |
| RouteTree.ObserveRouteMembers | internal/cloud/openstack/graph/route_graph.go:192-230 | members are accepted exactly when each one is owned, parsable and distinct by canonical address and port |
| RouteTree.ObserveRoutePolicies | internal/cloud/openstack/graph/route_graph.go:262-320 | policies are accepted exactly when each has one recognised role, no role repeats, and all their rules pass |
| RoutePlan.BuildRouteEnsurePlan | internal/cloud/openstack/graph/route_graph.go:418-505 | the plan builder's loops, map deletions and sorts compute the specified plan, and refuse immutable fields with foreign values |
| RoutePlan.BuildRoutePolicyPlan | internal/cloud/openstack/graph/route_graph.go:507-581 | the loops compute the policy plan, and the flag they set wherever a policy or rule differs is true exactly when that plan is not empty |
| RouteHead.PlanHeadJustified | internal/cloud/openstack/graph/route_graph.go:418-505 | the head of every ensure plan is a mutation the current state justifies: switches off while anything differs, edits only with every policy off, switches on only when nothing differs |
| RouteHead.PolicyTargetsExist | internal/cloud/openstack/graph/route_graph.go:435-492 | the next step of an ensure plan creates or retargets a policy only towards an existing pool of the same load balancer |
| RouteProgress.StepDecreases | internal/cloud/openstack/graph/route_graph.go:610-749 | every justified mutation leaves a tree the next observation accepts and strictly decreases the distance to the desired route |
| RouteProgress.TagsRecognised | internal/cloud/openstack/graph/route_graph.go:322-344 | tags written for a policy or rule are recognised under exactly their own role |
| RouteConvergence.PlanEmptyIff | internal/cloud/openstack/graph/route_graph.go:418-505 | the ensure plan is empty exactly when pool, members, monitor, policies and rules are the desired ones with every policy enabled |
| RouteConvergence.EnsureStepProgress | internal/cloud/openstack/graph/route.go:84-113 | one call leaves a converged route alone or gets strictly closer, and keeps the tree valid |
| RouteConvergence.Convergence | internal/cloud/openstack/graph/route.go:84-113 | every run with as many acting calls as the initial distance converges, whatever IDs the cloud assigns and however often it is pending; every state on the way is valid |
| RouteConvergence.DistanceBound | internal/cloud/openstack/graph/route_graph.go:418-505 | without a pool the distance is at most 43 plus one per member |
| RouteTraffic.TrafficSafety | internal/cloud/openstack/graph/route_graph.go:484-504 | over every run of ensure calls with changing specifications and of delete calls, no enabled policy or rule of one is edited or removed, and every enabled policy is the intact image of a specification of the history |
| RouteTraffic.RoutedIsWanted | internal/cloud/openstack/graph/route_graph.go:681-734 | whatever an enabled policy routes, some specification of the history asks for, and it goes to an existing pool of the Gateway |
| RouteTraffic.OneSpecTraffic | internal/cloud/openstack/graph/route_graph.go:484-504 | from an all-disabled start with one specification, every request ever routed matches the route |
| RouteTraffic.ConvergedServes | internal/cloud/openstack/graph/route.go:227-264 | in a converged route an absolute request is routed exactly when the Gateway API says so, by exactly one policy |
| RouteDeletion.BuildRouteDeletionPlan | internal/cloud/openstack/graph/route_graph.go:583-608 | the loops build the specified deletion plan |
| RouteDeletion.DeletionTail | internal/cloud/openstack/graph/route_graph.go:583-608 | executing the head of the route deletion plan and observing again gives exactly the tail |
| RouteDeletion.DeletionRun | internal/cloud/openstack/graph/delete.go:53-71 | deletion takes exactly as many calls as the plan is long, and the end is exactly the absence of route resources |
| Pruning.RouteDeletionExact | internal/cloud/openstack/graph/delete.go:53-71 | a whole route deletion leaves the store without the pool, members, monitors, policies and rules of the route, and everything else exactly as it was |
| RouteDeletion.DeletionRemovesLeaves | internal/cloud/openstack/graph/route_graph.go:583-608 | rules and policies go only while the policy is disabled, policies only without rules, the pool only without members, monitor and policies |
| RouteDeletion.DeletedPoolUnreferenced | internal/cloud/openstack/graph/route_graph.go:583-608 | while redirects are local, as every operation keeps them, no policy anywhere redirects to a pool that a route deletion removes |
| GatewayTree.BuildGatewayDeletionPlan | internal/cloud/openstack/graph/gateway_deletion_plan.go:84-98 | a plan is returned exactly when every resource beneath the load balancer belongs to the Gateway, and it is the specified one |
| GatewayTree.BuildGatewayListenerPlans | internal/cloud/openstack/graph/gateway_deletion_plan.go:103-143 | listener and route subplans in listener order, refused on any foreign resource |
| GatewayTree.BuildGatewayPoolPlan | internal/cloud/openstack/graph/gateway_deletion_plan.go:198-254 | monitors, members and pool of every pool in ID order, refused on any foreign resource |
| GatewayDeletion.GatewayDeletionTail | internal/cloud/openstack/graph/delete.go:129-164 | the head of the complete Gateway plan is a leaf, removing it leaves exactly the tail, and the load balancer goes only when no listener, pool or Floating IP remains |
| GatewayDeletion.RemovedPoolUnreferenced | internal/cloud/openstack/graph/gateway_deletion_plan.go:73-79 | while redirects are local, as every operation keeps them, no policy anywhere redirects to a pool that a Gateway deletion removes |
| Redirects.OperationKeepsRedirects | internal/cloud/openstack/graph/route_graph.go:610-749 | every operation of every identity leaves each policy redirecting to nothing or to a pool of its own load balancer |
| Redirects.RunKeepsRedirects | internal/cloud/openstack/graph/route_graph.go:610-749 | so does every run of operations of many identities |
| Redirects.RemovedPoolsUnreferenced | internal/cloud/openstack/graph/delete.go:53-165 | in every state such a run reaches, whatever operation removes a pool, no policy redirects to it |
| GatewayTraffic.DeleteGatewayEditsIff | internal/cloud/openstack/graph/delete.go:129-164 | one DeleteGateway call leaves the enabled policies of a listener alone exactly when the head of its plan removes no rule of an enabled policy and no enabled policy |
| GatewayTraffic.QuietDeletionIff | internal/cloud/openstack/graph/gateway_deletion_plan.go:145-196 | a whole Gateway deletion edits no enabled policy exactly when every policy beneath the load balancer is disabled at its start |
| GatewayTraffic.DeletionMisroutes | internal/cloud/openstack/graph/gateway_deletion_plan.go:145-196 | a concrete store in which one DeleteGateway call makes an enabled policy route a request its route rejects |
| AdminGating.GatewayDeletionRun | internal/cloud/openstack/graph/delete.go:77-165 | deleting a Gateway takes exactly as many calls as its plan is long, after which DeleteGateway reports Ready |
| Pruning.GatewayDeletionExact | internal/cloud/openstack/graph/delete.go:77-165 | a whole Gateway deletion leaves the store without the load balancer, everything beneath it and the Floating IPs at its port, and everything else exactly as it was |
| AdminGating.RouteTreeIsGatewayTree | internal/cloud/openstack/graph/gateway_deletion_plan.go:103-318 | every tree a route observation accepts is one the Gateway deletion accepts |
| Provider.Provider.EnsureRoute | internal/cloud/openstack/graph/route.go:55-114 | the call changes the store exactly as specified and reports the specified outcome, including every refusal |
| Provider.Provider.RepairRouteGatewayAdminState | internal/cloud/openstack/graph/route.go:116-147 | listener before load balancer, and neither before the Floating IP is as required |
| Provider.Provider.EnsureGateway | internal/cloud/openstack/graph/gateway.go:35-118 | one write at most, in the order load balancer, Floating IP, listener, admin state, after the whole tree was validated |
| Provider.Provider.DeleteRoute | internal/cloud/openstack/graph/delete.go:31-72 | removes the head of the route deletion plan or reports why not |
| Provider.Provider.DeleteGateway | internal/cloud/openstack/graph/delete.go:77-165 | removes the head of the complete Gateway plan after validating tree and Floating IPs |
| Provider.ObserveRouteGateway | internal/cloud/openstack/graph/route_graph.go:66-143 | what a route sees of its Gateway, with and without requirements |
| Provider.FindGatewayLoadBalancer | internal/cloud/openstack/graph/delete.go:194-213 | the one listed load balancer, refused when there are several or its project or identity differs |
| Provider.FindManagedGatewayListener | internal/cloud/openstack/graph/gateway.go:343-375 | the one listener beneath the load balancer, refused when there are several or one is foreign |
| Provider.ListGatewayFloatingIPs | internal/cloud/openstack/graph/gateway.go:415-437 | Floating IPs in ID order, refused when any fails its project, description or port check |
| Provider.ObserveFloatingIPs | internal/cloud/openstack/graph/gateway.go:377-469 | whether the Floating IP state is as required, missing, superfluous or unusable |
| Isolation.OperationIsolated | internal/cloud/openstack/graph/route_graph.go:159-344 | any of the four operations leaves every existing resource unchanged that does not exactly match the acting identity: the route for route resources under route operations, the Gateway otherwise |
| Isolation.RunIsolated | internal/cloud/openstack/graph/delete.go:96-147 | in any run of many identities, resources that match none of the acting routes and Gateways are unchanged at the end |
| TagIsolation.RunKeepsMine | internal/cloud/openstack/identity/metadata.go:162-182 | in any run of identities whose matches never meet mine, everything that matches mine is unchanged at the end |
| TagIsolation.RoutesApart | internal/cloud/openstack/identity/metadata.go:176-182 | two undigested routes, also of one Gateway, never match the same tags in any route roles |
| TagIsolation.GatewayApartFromRoute | internal/cloud/openstack/identity/metadata.go:162-182 | a Gateway never matches a route resource of another Gateway |
| TagIsolation.RoutesNeverTouch | internal/cloud/openstack/graph/route_graph.go:159-344 | an operation for one route leaves every pool, member, monitor, policy and rule of another route of the same Gateway as it was |
| Isolation.FaultWritesNothing | internal/cloud/openstack/graph/gateway_deletion_plan.go:103-318 | one listener, pool, member, monitor, policy, rule or Floating IP of the tree that fails its own project, identity or parent check, or a surplus one, and the call writes nothing and does not report Ready |
| Isolation.LoadBalancerFaultWritesNothing | internal/cloud/openstack/graph/delete.go:194-213 | two listed load balancers, or one of another project or with an incomplete identity, make all four operations fail without a write |
| Isolation.StatusDecides | internal/cloud/openstack/graph/gateway.go:217-285 | while the load balancer is pending all four operations report progress, once it is broken all fail, and none writes, apart from what they refuse outright |
| Isolation.AbsenceDecides | internal/cloud/openstack/graph/delete.go:43-121 | without a load balancer the deletions are Ready, a route waits, and EnsureGateway creates exactly one load balancer with the specified fields |
| SingleWrite.OperationWritesOnce | internal/cloud/openstack/graph/route.go:84-113 | one call of any operation creates, changes or removes at most one resource |
| Faultless.DeleteGatewayRefusedIff | internal/cloud/openstack/graph/gateway_deletion_plan.go:84-318 | DeleteGateway on an active load balancer fails exactly when some resource beneath it or Floating IP at its port fails its project, identity or parent check |
| Faultless.EnsureGatewayRefusedIff | internal/cloud/openstack/graph/gateway.go:35-118 | EnsureGateway on an active load balancer fails exactly for an invalid or incompatible specification, such a fault, two listeners, one of another protocol or port, or Floating IPs other than the one asked for |
| Faultless.RouteTreeRefusedIff | internal/cloud/openstack/graph/route_graph.go:145-344 | the tree of a route is accepted exactly when no resource of it fails a check, is repeated, or names a role without matching it |
| Faultless.DeleteRouteRefusedIff | internal/cloud/openstack/graph/delete.go:31-72 | DeleteRoute on an active Gateway fails exactly for such a fault of the tree or of the listener |
| Isolation.OnlyProgressWrites | internal/cloud/openstack/graph/gateway.go:57-117 | a call that fails or reports Ready has written nothing |
| AdminGating.OperationGated | internal/cloud/openstack/graph/gateway.go:69-117 | an existing listener or load balancer is switched on only when no route resource is beneath it, or the route graph is exactly the desired one; in both cases with the Floating IP state as required, and a load balancer only after its one listener |
| AdminGating.RunGated | internal/cloud/openstack/graph/route.go:92-147 | the gate holds at every step of every interleaving of the four operations of any identities |
| RouteService.EnsureRouteReady | internal/cloud/openstack/graph/route.go:92-106 | EnsureRoute reports Ready exactly when the Gateway is in place, the route has converged, and listener and load balancer are on |
| RouteService.EnsureRouteTerminates | internal/cloud/openstack/graph/route.go:55-147 | from any serviceable state, in every run of EnsureRoute calls and status changes of the load balancer, once as many calls have acted as remained, an acting call reports Ready and changes nothing |
| RouteService.ReadyServes | internal/cloud/openstack/graph/route.go:92-106 | after a Ready report an absolute request is routed exactly when the Gateway API says so |
| RouteContents.ReadyContents | internal/cloud/openstack/graph/route_graph.go:610-749 | after a Ready report the one pool is HTTP round robin and on, its members are the specified endpoints one to one on the member subnet, its one monitor is an HTTP GET of the configured path or "/" expecting 200-399 every 10 seconds with timeout 5 and three retries either way, and every policy redirects to that pool, beneath the required load balancer and listener, both on |
| RouteContents.EnsureRouteRefusedIff | internal/cloud/openstack/graph/route.go:55-114 | on an active Gateway EnsureRoute fails exactly for an invalid specification, another Gateway than required, a fault of the tree, a pool or monitor of another kind, or Floating IPs that keep a finished route from being switched on |
| RouteMeaning.ReadyServesHTTPRoute | internal/controller/httproute/httproute_model.go:79-163 | once EnsureRoute is Ready for the specification built from an HTTPRoute, a request is routed exactly when the HTTPRoute accepts it, by one policy, to the pool as specified |
| RouteService.DeleteRouteReady | internal/cloud/openstack/graph/delete.go:43-60 | DeleteRoute reports Ready exactly when there is no Gateway or no route resource beneath it |
| GatewayService.EnsureGatewayReady | internal/cloud/openstack/graph/gateway.go:35-118 | EnsureGateway reports Ready exactly when the load balancer has its immutable fields and an owned tree, the listener exists with the right protocol and port, both are on, and the Floating IP is as required |
| GatewayContents.ReadyGatewayContents | internal/cloud/openstack/graph/gateway.go:35-118 | after a Ready report there is one load balancer of the project with the specified subnet and provider, one HTTP listener on the specified port, both on, and exactly the Floating IP asked for |
| GatewayContents.EnsureGatewayOrder | internal/cloud/openstack/graph/gateway.go:57-118 | a Floating IP is created only where one is asked for and none is there, removed only where none is asked for, and a listener is created only when there is none and the Floating IP is as required |
| GatewayService.EnsureGatewayTerminates | internal/cloud/openstack/graph/gateway.go:57-117 | on a Gateway without route resources, in every run of EnsureGateway calls and status changes, once as many calls have acted as remained, listener, Floating IP and admin states are as required and an acting call reports Ready |
| GatewayService.GatewayCallProgress | internal/cloud/openstack/graph/gateway.go:287-413 | every call reports Ready and writes nothing, or removes a difference and leaves a state the next call accepts |
| GatewayService.CreatedLoadBalancer | internal/cloud/openstack/graph/gateway.go:270-284 | a created load balancer is the one the next call finds, with the immutable fields it checks |
| EndToEnd.FromNothing | internal/cloud/openstack/graph/gateway.go:35-118 | from an empty cloud, with EnsureGateway calls, EnsureRoute calls and status changes in any order: after three acting Gateway calls and then as many acting route calls as there are members plus 43, both report Ready whenever the load balancer is active, and a request is routed exactly when the Gateway API says so, by one policy |
| EndToEnd.ServiceReachable | internal/cloud/openstack/graph/gateway.go:35-118 | such a run exists for every fitting Gateway and route and every store without their load balancer |
| EndToEnd.ReachableStep | internal/cloud/openstack/graph/gateway.go:57-117 | every call and status change leaves a state of that run, and only an acting Gateway call brings the Gateway closer to completion, by at least one step |
| EndToEnd.ServingStep | internal/cloud/openstack/graph/route.go:55-114 | once the Gateway is complete it stays so, and every acting route call is one step closer or has nothing to do |
| EndToEnd.CompleteGatewayReady | internal/cloud/openstack/graph/gateway.go:57-117 | EnsureGateway reports Ready and writes nothing on a complete Gateway, whatever part of its route exists |
| EndToEnd.GatewayIdentityDecides | internal/cloud/openstack/graph/gateway.go:35-68 | EnsureGateway does the same for a route identity as for its Gateway identity |
| Coordination.StepKeepsInv | internal/controller/graph/coordinator.go:52-116 | every atomic step of every caller keeps token and reference counts right |
| Coordination.MutualExclusion | internal/controller/graph/coordinator.go:52-80 | over every interleaving at most one call holds a Gateway UID |
| Coordination.Conservation | internal/controller/graph/coordinator.go:91-116 | tokens in the channel plus token owners are one, and `refs` is the number of outstanding references |
| Coordination.OneEntryPerGateway | internal/controller/graph/coordinator.go:91-116 | at most one referenced entry exists per UID |
| Coordination.ReturnsNeverBlock | internal/controller/graph/coordinator.go:66-79 | sending the token back and giving up the reference never block |
| Coordination.ReleaseTwice | internal/controller/graph/coordinator.go:73-79 | a release starts giving back for a holder, and changes nothing in any other phase, so not when called again |
| Coordination.ReleaseGivesBack | internal/controller/graph/coordinator.go:73-79 | over every run the release of a holder runs through without blocking: the call is gone, the token is back, there is one reference fewer, the UID is forgotten exactly with the last one, and nothing else changes |
| Coordination.CancelGivesBack | internal/controller/graph/coordinator.go:60-71 | a cancelled call leaves likewise, before and after it took the token |
| Coordination.RetainWaits | internal/controller/graph/coordinator.go:91-106 | a new call waits on the one entry of its UID and is counted |
| Coordination.AcquireHolds | internal/controller/graph/coordinator.go:52-80 | acquiring an uncontended UID succeeds and the call then holds it |
| Coordination.HandOver | internal/controller/graph/coordinator.go:60-79 | after the release of the holder any call waiting on the entry can take the token, commit, and then holds the UID, the former holder no longer |
| Coordination.WaiterCanHold | internal/controller/graph/coordinator.go:52-80 | from every reachable state every waiting call can still come to hold its UID |
| Coordination.WaiterCanProceed | internal/controller/graph/coordinator.go:60-71 | a waiting call can take the token, or another call has it and can move on |
| Coordination.NoLeak | internal/controller/graph/coordinator.go:108-116 | when every call has left, the table is empty |
| Coordination.Coordinator.RetainFor | internal/controller/graph/coordinator.go:91-106 | finds or creates the entry, counts the reference, keeps the invariant |
| Coordination.Coordinator.SendToken | internal/controller/graph/coordinator.go:73-79 | the channel has room for the token whenever it is sent |
| Coordination.Coordinator.ReleaseReference | internal/controller/graph/coordinator.go:108-116 | forgets the entry with the last reference, keeps the invariant |
| GatewayAuthority.ValidateGatewayBinding | internal/controller/binding.go:31-53 | counting populated values decides exactly whether the stored binding is absent or complete and names this cluster and project |
| GatewayAuthority.ExclusiveAuthority | internal/controller/gateway/gateway_snapshot.go:55-114 | a state in which a binding-required snapshot succeeds never yields cleanup Delete |
| GatewayAuthority.SealedAuthority | internal/controller/gateway/gateway_snapshot.go:119-164 | a snapshot built in one state and sealed in a later one implies, in the later one, a complete binding and no cleanup Delete |
| GatewayAuthority.PhaseAgrees | internal/controller/gateway/gateway_snapshot.go:190-223 | the phase is Ensure exactly when the required snapshot succeeds, and the cleaning phases never meet cleanup Hold |
| GatewayAuthority.CleanupExactly | internal/controller/gateway/gateway_snapshot.go:246-312 | on an up-to-date read cleanup deletes a deleting Gateway with a sound binding whatever its class and the version, and for a live one deletes or holds exactly under the stated conditions on class, version, parameters, listener and stored port |
| GatewayAuthority.StaleReadDecidesNothing | internal/controller/gateway/gateway_snapshot.go:255-262 | a cleanup read that is out of date is an error |
| GatewayAuthority.MutationExactly | internal/controller/gateway/gateway_snapshot.go:55-114 | when an up-to-date snapshot authorises a mutation, in terms of the fields of Gateway and class |
| GatewayAuthority.UnchangedSeals | internal/controller/gateway/gateway_snapshot.go:119-164 | a snapshot passes the fence as long as nothing changed and the version is supported |
| GatewayAuthority.PhaseExactly | internal/controller/gateway/gateway_snapshot.go:190-223 | every phase in terms of the fields of Gateway and class |
| GatewayAuthority.BindingRoundTrip | internal/controller/gateway/gateway_binding.go:44-62 | binding completes and validates the metadata, is idempotent, changes nothing else, and clearing removes all of it |
| Lifecycle.StepKeepsInv | internal/controller/gateway/gateway_cleanup.go:39-121 | binding, ensuring, deleting, clearing, route calls and outside edits keep the lifecycle invariant |
| Lifecycle.LifecycleInvariant | internal/controller/gateway/gateway_graph.go:33-60 | from a world without the load balancer, over every run, including status changes and the operations of other Gateways, a load balancer with the Gateway identity exists only while the Gateway carries the finalizer and a complete binding |
| Lifecycle.OtherGatewayIsHarmless | internal/cloud/openstack/identity/metadata.go:111-165 | the operations of another undigested Gateway identity never create a load balancer that this identity lists |
| Lifecycle.ReadyMeansGone | internal/cloud/openstack/graph/delete.go:89-121 | after a Ready deletion no load balancer carries the identity |
| Lifecycle.GoneWithoutGraph | internal/controller/gateway/gateway_cleanup.go:69-96 | a Gateway object that disappears leaves no load balancer behind |
| Lifecycle.CleanupCompletes | internal/controller/gateway/gateway_cleanup.go:39-121 | whenever cleanup is authorised and the graph is active and deletable, deleting as often as the plan is long and once more, then clearing, is enabled throughout and ends without graph, finalizer and binding |
| Lifecycle.DeletingGatewayGoes | internal/controller/gateway/gateway_snapshot.go:267-273 | that holds for every deleting Gateway with a complete binding, whatever its class and the installed version |
| Lifecycle.BindThenEnsure | internal/controller/gateway/gateway_binding.go:44-62 | whenever a Gateway may be bound, binding completes the metadata and opens the way to the step that does what EnsureGateway does |
| RouteBinding.ReadStoredIdentity | internal/controller/binding.go:114-181 | the counting and scanning loops compute the specified reading |
| RouteBinding.RouteObject.ApplyBinding | internal/controller/httproute/httproute_binding.go:169-189 | annotations and finalizers become exactly the specified ones |
| RouteBinding.RouteObject.ClearBinding | internal/controller/httproute/httproute_binding.go:191-200 | whatever the route carried, it reads as not bound afterwards, the finalizers of the controller are gone, and every other finalizer and annotation is as it was, in order |
| RouteBinding.RouteObject.RemoveBindingFinalizers | internal/controller/httproute/httproute_binding.go:226-232 | the loop over a copy of the list removes exactly the binding finalizers and keeps the order of the rest |
| RouteBinding.RouteObject.RemoveStaleBindingFinalizers | internal/controller/httproute/httproute_binding.go:202-211 | only binding finalizers other than the expected one go, the order of the rest stays |
| RouteBinding.ApplyThenRead | internal/controller/httproute/httproute_binding.go:169-189 | reading an applied binding returns the route's identity |
| RouteBinding.ApplyIdempotent | internal/controller/httproute/httproute_binding.go:169-189 | applying the same binding again changes nothing |
| RouteBinding.ClearThenRead | internal/controller/httproute/httproute_binding.go:191-200 | a cleared route reads as not bound |
| RouteConditions.BoundIsFixpoint | internal/controller/httproute/httproute_binding.go:169-189 | applying a binding changes nothing exactly on a route whose annotations and finalizers are those of that binding |
| RouteConditions.ReadsExactly | internal/controller/binding.go:114-181 | when metadata reads as bound, and to whom, and when as not bound |
| RouteBinding.TamperEvident | internal/controller/binding.go:114-181 | whatever happens to the annotations while the finalizers stay, reading gives the bound identity or fails, unless the two digests collide |
| RouteBinding.BindingInputUnique | internal/controller/config.go:137-141 | the digest input of a NUL-free target belongs to no other target |
| RouteSelection.IsSelectedRoute | internal/controller/httproute/httproute_selection.go:37-77 | the scan that keeps a winner computes whether no other eligible route precedes this one, with precedence as `OldestFirst` states it |
| RouteSelection.PrecedenceOrder | internal/controller/httproute/httproute_selection.go:131-136 | precedence is a strict total order within a namespace |
| RouteSelection.OldestFirst | internal/controller/httproute/httproute_selection.go:131-136 | within a namespace the older route precedes, and among equally old ones the one with the lesser name |
| RouteSelection.ExactlyOneSelected | internal/controller/httproute/httproute_selection.go:37-77 | for any listing with an eligible route exactly one eligible route considers itself selected: the oldest, and among equally old ones the first by name |
| RouteSelection.OrderIrrelevant | internal/controller/httproute/httproute_selection.go:53-76 | selection does not depend on list order |
| RouteSelection.IndexAgrees | internal/controller/indexes.go:193-212 | selection over the index and over the whole namespace agree |
| RouteSelection.ParentGatewayKeys | internal/controller/indexes.go:193-212 | the distinct referenced Gateway keys in order |
| RouteSelection.NodePortForBackend | internal/controller/httproute/httproute_backend.go:32-50 | the first port with the number decides between found, rejected and pending |
| RouteSelection.BuiltIsSupported | internal/controller/httproute/httproute_model.go:55-163 | a specification is built only for a structurally supported route that may hold the slot, with a path that path compilation accepts |
| RouteMeaning.PathCheckExact | internal/controller/httproute/httproute_model.go:199-204 | the textual path check accepts exactly the absolute paths without empty, "." and ".." elements, a last empty one aside |
| RouteMeaning.BuiltExactly | internal/controller/httproute/httproute_model.go:79-163 | a specification is built exactly for a route within the profile whose backend is a NodePort Service with members at its first port of that number; it holds those members, the configured values and the port of the listener |
| RouteMeaning.BuiltMeaning | internal/controller/httproute/httproute_model.go:79-197 | the built specification accepts a request exactly when the HTTPRoute does, by its hostnames and its path match |
| RouteMeaning.ReserveExactly | internal/controller/httproute/httproute_selection.go:92-129 | a route keeps its claim on the slot unless its Service exists and is no NodePort Service or has an unsuitable first port of that number |
| RouteAuthority.ReadyExcludesCleanup | internal/controller/httproute/httproute_snapshot.go:110-309 | a Ready snapshot of a route that is not being deleted leaves cleanup with StillDesired or a refusal |
| RouteAuthority.ReadyMeetsCleanupIff | internal/controller/httproute/httproute_snapshot.go:420-510 | a Ready snapshot meets a required cleanup exactly when the route is being deleted |
| RouteAuthority.DeletingRouteExample | internal/controller/httproute/httproute_snapshot.go:449-451 | a concrete deleting route that is Ready and whose cleanup is required |
| RouteAuthority.AtMostOneReady | internal/controller/httproute/httproute_snapshot.go:237-275 | at most one live route of a Gateway can be Ready |
| RouteConditions.ReadyExactly | internal/controller/httproute/httproute_snapshot.go:110-309 | the Ready snapshot of an up-to-date read in terms of the fields: a workable Gateway, its one listener on the bound port, an attached route within the profile with members, no older competitor, and a complete binding |
| RouteConditions.StaleReadRefused | internal/controller/httproute/httproute_snapshot.go:142-172 | a read that is out of date is refused |
| RouteConditions.CleanupExactlyWhen | internal/controller/httproute/httproute_snapshot.go:420-510 | cleanup is required, or the route still desired, exactly under the stated conditions on deletion, parents, version, class and what the Gateway still asks for |
| RouteConditions.UnchangedRouteSeals | internal/controller/httproute/httproute_snapshot.go:359-418 | a Ready snapshot passes the fence as long as nothing changed and the version is supported |
| RouteAuthority.SealedRoute | internal/controller/httproute/httproute_snapshot.go:359-418 | a Ready snapshot built in one state and sealed in a later one implies, in the later one, the same route revision, a binding to this Gateway, a usable Gateway that accepts the route, and a cleanup that is required exactly when the Services, their members or a competing route no longer let it be served |
| RouteAuthority.SealedStaysWanted | internal/controller/httproute/httproute_snapshot.go:359-418 | while Services, members and listed routes are as they were, a sealed route is still desired |
| RouteAuthority.SealedSpecifications | internal/controller/httproute/httproute_snapshot.go:359-418 | the model and the fence saw the same route and Gateway specifications, with the binding required or not |
| RouteAuthority.CleanupAllowedDuringVersionMismatch | internal/controller/httproute/httproute_snapshot.go:563-585 | cleanup is allowed exactly when no parent stands in the way |
| RouteAuthority.ObserveParents | internal/controller/httproute/httproute_snapshot.go:512-561 | the Gateway parents with their classes, in order |
| OwnershipTags.ContainsAll | internal/cloud/openstack/identity/metadata.go:305-325 | true exactly when every expected key occurs once with the expected value |
| OwnershipTags.ParseWritten | internal/cloud/openstack/identity/metadata.go:337-346 | parsing a written tag gives back key and encoded value |
| OwnershipTags.GeneratedTagsFit | internal/cloud/openstack/identity/metadata.go:267-303 | every generated tag is within 255 bytes |
| OwnershipTags.GeneratedTagsMatch | internal/cloud/openstack/identity/metadata.go:111-182 | generated tags match their own identity and role |
| OwnershipTags.MatchingChain | internal/cloud/openstack/identity/metadata.go:129-190 | exact route match implies exact Gateway match implies discovery match implies being listed |
| OwnershipTags.GatewayTagsUnique | internal/cloud/openstack/identity/metadata.go:162-165 | undigested tags match at most one Gateway identity and role, version aside, and project aside when one has none |
| OwnershipTags.ProjectlessMatchesAny | internal/cloud/openstack/identity/metadata.go:280-282 | an identity without a project matches the tags of every project |
| OwnershipTags.ShareTagsIff | internal/cloud/openstack/identity/metadata.go:162-165 | two undigested identities can match the same tags exactly when their other Gateway fields agree and their projects are equal or one has none |
| OwnershipTags.RouteTagsUnique | internal/cloud/openstack/identity/metadata.go:176-182 | undigested tags match at most one route identity and role |
| OwnershipTags.IdentitiesApart | internal/cloud/openstack/identity/metadata.go:162-165 | identities that differ in a Gateway field never match the same tags |
| OwnershipTags.JoinedUnique | internal/cloud/openstack/identity/metadata.go:225-248 | the length-prefixed description input is uniquely decodable |
| OwnershipTags.JoinParts | internal/cloud/openstack/identity/metadata.go:238-242 | the loop builds the specified input |
| OwnershipTags.DescriptionUnique | internal/cloud/openstack/identity/metadata.go:253-265 | without a collision a description matches at most one Gateway identity and role |
| OwnershipTags.RouteOwnerLawful | internal/cloud/openstack/identity/metadata.go:111-190 | every valid route identity satisfies the laws the reconciler relies on |
| OwnershipTags.GatewayOwnerLawful | internal/cloud/openstack/identity/metadata.go:111-173 | every identity satisfies the laws the Gateway operations rely on |
| Audit.AuditSound | internal/cloud/openstack/inventory/classification.go:627-670 | every matched non-root resource has its parent, and a policy its redirect pool, present and matched |
| AuditRecords.MatchingAuditRecords | internal/cloud/openstack/inventory/classification.go:394-425 | the loop over the durable records collects the exact, the named and the referring ones |
| AuditRecords.ExactCollected | internal/cloud/openstack/inventory/classification.go:394-441 | the collected exact matches are matching records, and every matching record is collected up to its version |
| AuditBindings.OneGatewayBinding | internal/cloud/openstack/inventory/classification.go:82-298 | a resource reported as matched belongs, with its whole chain of parents, to one durable Gateway binding, which the load balancer matches exactly |
| AuditBindings.RouteBindingAgrees | internal/cloud/openstack/inventory/classification.go:394-425 | the route binding a matched route resource was attributed to names that Gateway |
| Audit.WholeChainMatched | internal/cloud/openstack/inventory/classification.go:627-670 | the whole chain up to the load balancer is matched |
| Audit.MatchedAreDistinct | internal/cloud/openstack/inventory/classification.go:604-625 | no two resources reported as matched share a logical identity, and all but members have one |
| Audit.MatchedHasKey | internal/cloud/openstack/inventory/classification.go:672-700 | every matched resource that is not a member has a logical identity |
| Audit.MatchedAlone | internal/cloud/openstack/inventory/classification.go:82-221 | what a resource that passes its own classification is known to have |
| AuditVerdicts.MatchedExactly | internal/cloud/openstack/inventory/classification.go:627-670 | a resource is reported as matched exactly when it is in scope, well-formed, attributed to one durable binding and without a twin, and its parent and the pool of a policy are reported as matched |
| AuditVerdicts.BindingVerdictExactly | internal/cloud/openstack/inventory/classification.go:168-221 | matched by exactly one record, stale when the one record with the names deviates in UIDs alone, an orphan candidate when no record has the names, unresolved when only a route refers to it |
| AuditVerdicts.TaggedVerdict | internal/cloud/openstack/inventory/classification.go:82-221 | a well-formed resource gets the verdict of the bindings, except that a match without its parent is unresolved |
| AuditVerdicts.OnlyWellFormed | internal/cloud/openstack/inventory/classification.go:82-221 | matched, stale and orphan verdicts are given to well-formed resources only |
| AuditVerdicts.OtherVerdicts | internal/cloud/openstack/inventory/classification.go:604-670 | stale and orphan verdicts come from the resource itself, and a twin turns them into a conflict |
| AuditVerdicts.ParentFindingsReach | internal/cloud/openstack/inventory/classification.go:627-670 | an unmatched parent makes a child a conflict when it is one, and unresolved otherwise |
| Audit.MarkDuplicates | internal/cloud/openstack/inventory/classification.go:604-625 | in place, exactly the resources with a logical twin become conflicts |
| Audit.PropagateParentFindings | internal/cloud/openstack/inventory/classification.go:627-670 | the single ordered pass in place computes the order-independent result for every listing order |
| Backends.NodePortMembers | internal/controller/httproute/httproute_backend.go:56-128 | the sorted distinct addresses of the contributing Nodes, or the reason for having none |
| Backends.MembersExactly | internal/controller/httproute/httproute_backend.go:56-156 | the members are, in dictionary order, exactly the first parsable addresses of the configured kind of Nodes that are live, schedulable and whose first Ready condition is "True", restricted for a local policy to Nodes with a ready endpoint |
| Backends.PendingExactly | internal/controller/httproute/httproute_backend.go:56-128 | the reason for having no members is the first of: no ready endpoint, no Node named, no address |
| Backends.ComputeSliceState | internal/controller/predicates.go:353-376 | the projected state of an EndpointSlice |
| Backends.SliceFilterSound | internal/controller/predicates.go:194-203 | an EndpointSlice update with the same projected state cannot change the member list or its pending reason |
| Backends.NodeFilterSound | internal/controller/predicates.go:206-215 | a Node update with the same projected state cannot change the member list or its pending reason |
| Backends.ResultUnique | internal/controller/httproute/httproute_backend.go:56-128 | the member list is determined by the inputs |
| Jitter.DeltaExact | internal/controller/provider_outcomes.go:279-281 | the split product equals base times offset over 1000, truncated toward zero |
| Jitter.NoOverflow | internal/controller/provider_outcomes.go:272-287 | no intermediate value leaves the 64-bit range |
| Jitter.JitterBounds | internal/controller/provider_outcomes.go:272-287 | the result is positive and within 80% to 120% of the base, or saturates at the maximum |
| Jitter.JitterExact | internal/controller/provider_outcomes.go:272-287 | the interval is base plus base times (hash mod 401 minus 200) over 1000, truncated, cut off only beyond 64 bits |
| Jitter.EveryOffsetOccurs | internal/controller/provider_outcomes.go:272-287 | every offset from -20% to +20% in steps of one permille occurs |
| Jitter.ProgressRequeue | internal/controller/provider_outcomes.go:95-115 | the progress requeue lies between one and thirty seconds |
| Jitter.ProgressFollowsRequest | internal/controller/provider_outcomes.go:95-115 | a requested interval inside the bounds is followed within a fifth |
| Jitter.ProgressOutsideBounds | internal/controller/provider_outcomes.go:95-115 | without a request five seconds, below the bounds one and above them thirty, each jittered and kept within the bounds |
| Jitter.ProgressInsideBounds | internal/controller/provider_outcomes.go:95-115 | inside the bounds the jittered request, kept within the bounds |

## Left out

- Octavia and Neutron clients, pagination and error classification: network I/O and flat tables; a failed call is an outcome `Failed` with an unchanged store.
- Octavia's automatic renumbering of policy positions: positions are what the last write set.
- The `ProjectID` filter of the list calls: the store holds what the calls return, so a foreign project shows up as a conflict instead of being hidden.
- Asynchronous deletion: a deleted load balancer is gone at once.
- EndToEnd.FromNothing: the Octavia provider name is configured, both specifications come from one configuration, and no other identity writes to the load balancer.
- A load balancer without a VIP port ID, for which an unfiltered Floating IP listing would be made.
- `RouteState` and `GatewayState` results beyond the IDs that decide: they only repeat observed IDs.
- `GetGateway`: a read-only variant of the observation in `Provider.ObserveRouteGateway`.
- Availability while members are replaced: stale members go before new ones come.
- RouteModel.BuildDesiredRoute: the identity is given and valid, so the refusals of an invalid identity and of its tags do not appear; generated tags always fit (`OwnershipTags.GeneratedTagsFit`).
- GatewayAuthority.SealedAuthority: the two reads are two states related by the API server's generation law; reads within one observation see one state.
- RouteAuthority.ReadyExcludesCleanup: stated for the Gateway that the route's parent reference names, as the caller resolves it.
- Audit.AuditSound: decoding of tag values is a parameter of the audit scope.
- The fence before a route cleanup: it re-reads the route and compares revision, resource version and stored identity, so it passes only for the very object that was read.
- RouteMeaning.BuiltMeaning: a hostname that is the empty string, which the API does not admit, counts as no hostname.
- Backends.NodePortMembers: members are deduplicated by address, since all have the same NodePort.
- Retries after Kubernetes conflicts, status and Event publication, watches, command line, metrics and the capability probe: plumbing.
