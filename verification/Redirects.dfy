/** Policies redirect only within their own load balancer. Octavia enforces this on
    every write, and every operation keeps it, so a pool that an operation removes
    is the target of no policy. */
module Redirects {
  import opened Ownership
  import opened Octavia
  import opened RouteModel
  import opened RouteTree
  import opened RoutePlan
  import opened RouteSteps
  import opened RouteHead
  import opened RouteDeletion
  import opened GatewayTree
  import opened GatewayDeletion
  import opened Provider
  import opened Isolation

  // ----- single writes -----

  predicate SameParents(a: Policies, b: Policies)
  {
    forall q :: q in b ==> q in a && b[q].parent == a[q].parent && b[q].redirectPool == a[q].redirectPool
  }

  /** Policies keep parent and target or disappear, pools keep their parent or
      disappear, listeners keep theirs. */
  lemma FewerRedirects(st: Store, st': Store)
    requires RedirectsLocal(st) && SameParents(st.policies, st'.policies)
    requires forall p :: p in st'.pools ==> p in st.pools && st'.pools[p].parent == st.pools[p].parent
    requires forall l :: l in st.listeners ==> l in st'.listeners && st'.listeners[l].parent == st.listeners[l].parent
    ensures RedirectsLocal(st')
  {
  }

  lemma NewPoolKeepsRedirects(st: Store, id: Id, pool: Pool)
    requires RedirectsLocal(st) && Fresh(st, id)
    ensures RedirectsLocal(st.(pools := st.pools[id := pool]))
  {
  }

  lemma PolicyWriteKeepsRedirects(st: Store, id: Id, policy: Policy, lb: Id)
    requires RedirectsLocal(st) && policy.parent in ListenersOf(st.listeners, lb) && policy.redirectPool in PoolsOf(st.pools, lb)
    ensures RedirectsLocal(st.(policies := st.policies[id := policy]))
  {
  }

  predicate MovesNothing(m: Mutation)
  {
    !m.CreatePool? && !m.CreatePolicy? && !m.UpdatePolicy?
  }

  function Switched(policies: Policies, p: Id, up: bool): Policies
  {
    if p in policies then policies[p := policies[p].(up := up)] else policies
  }

  lemma TargetsStay(policies: Policies, p: Id, up: bool)
    ensures SameParents(policies, policies) && SameParents(policies, policies - {p})
    ensures SameParents(policies, Switched(policies, p, up))
  {
  }

  lemma ExecuteKeepsTargets(env: Env, d: Desired, site: Site, st: Store, m: Mutation, id: Id)
    requires MovesNothing(m)
    ensures SameParents(st.policies, Execute(env, d, site, st, m, id).policies)
  {
    hide SameParents, NewMember, NewMonitor, NewRule, RepairedMonitor, RepairedRule;
    match m {
      case DisablePolicy(p) => TargetsStay(st.policies, p, false);
      case EnablePolicy(p) => TargetsStay(st.policies, p, true);
      case DeletePolicy(p) => TargetsStay(st.policies, p, false);
      case _ => TargetsStay(st.policies, "", false);
    }
  }

  lemma ExecuteKeepsPoolParents(env: Env, d: Desired, site: Site, st: Store, m: Mutation, id: Id)
    requires MovesNothing(m)
    ensures var pools := Execute(env, d, site, st, m, id).pools;
            forall p :: p in pools ==> p in st.pools && pools[p].parent == st.pools[p].parent
  {
    hide NewMember, NewMonitor, NewRule, RepairedMonitor, RepairedRule;
  }

  lemma ExecuteKeepsRedirects(env: Env, d: Desired, site: Site, st: Store, m: Mutation, id: Id)
    requires RedirectsLocal(st) && TargetsHere(st, site, m) && (m.CreatePool? ==> Fresh(st, id))
    requires !MovesNothing(m) ==> site.listener in ListenersOf(st.listeners, site.loadBalancer)
    ensures RedirectsLocal(Execute(env, d, site, st, m, id))
  {
    hide RedirectsLocal, Fresh;
    if MovesNothing(m) {
      hide Execute, SameParents;
      ExecuteKeepsTargets(env, d, site, st, m, id);
      ExecuteKeepsPoolParents(env, d, site, st, m, id);
      ExecuteKeepsGateway(env, d, site, st, m, id);
      FewerRedirects(st, Execute(env, d, site, st, m, id));
    } else {
      match m {
        case CreatePool => NewPoolKeepsRedirects(st, id, NewPool(env, site.loadBalancer));
        case CreatePolicy(q, w) =>
          PolicyWriteKeepsRedirects(st, id, NewPolicy(env, site.listener, q, w), site.loadBalancer);
        case UpdatePolicy(p, q, w) =>
          PolicyWriteKeepsRedirects(st, p, RepairedPolicy(st.policies[p], q, w), site.loadBalancer);
      }
    }
  }

  lemma RemoveKeepsRedirects(st: Store, lb: Id, m: Removal)
    requires RedirectsLocal(st) && lb in st.loadBalancers && RemovesGatewayLeaf(st, lb, m)
    ensures RedirectsLocal(Remove(st, m))
  {
    match m {
      case RemoveListener(l) => assert forall q :: q in st.policies && st.policies[q].parent == l ==> q in PoliciesOf(st.policies, l);
      case _ =>
    }
  }

  // ----- the operations -----

  lemma SiteListeners(env: Env, st: Store, requirements: Option<RouteSpec>, site: Site)
    requires ViewGateway(env, st, requirements) == GatewayReady(site) && "" !in st.listeners
    ensures OnlyListener(st, site)
    ensures requirements.Some? ==> site.listener in ListenersOf(st.listeners, site.loadBalancer) && site.listener != ""
  {
    assert forall l :: l in st.listeners && st.listeners[l].parent == site.loadBalancer ==>
      l in ListenersOf(st.listeners, site.loadBalancer);
  }

  lemma EnableKeepsRedirects(st: Store, site: Site)
    requires RedirectsLocal(st) && site.loadBalancer in st.loadBalancers && site.listener in st.listeners
    ensures RedirectsLocal(EnableListener(st, site.listener)) && RedirectsLocal(EnableLoadBalancer(st, site.loadBalancer))
  {
  }

  lemma EnsureRouteKeepsRedirects(env: Env, spec: RouteSpec, st: Store, id: Id)
    requires LawfulNet(env.net) && RedirectsLocal(st) && "" !in st.listeners && Fresh(st, id)
    ensures RedirectsLocal(EnsureRouteResult(env, spec, st, id).store)
  {
    hide LawfulNet, Fresh, DesiredFor, EnsurePlan, GraphOf, TreeOk, Execute, ViewGateway, RedirectsLocal, DesiredOk, TargetsHere,
         FloatingIPStateOf, EnableListener, EnableLoadBalancer, OnlyListener;
    var d := DesiredFor(env.net, spec);
    var view := ViewGateway(env, st, Some(spec));
    if d.Some? && view.GatewayReady? {
      ReadySite(env, st, spec, view.site);
      SiteListeners(env, st, Some(spec), view.site);
      DesiredForOk(env.net, spec, d.value);
      EnableKeepsRedirects(st, view.site);
      if TreeOk(env, st, view.site) {
        var plan := EnsurePlan(env.net, d.value, GraphOf(env, st, view.site));
        if plan.Some? && plan.value != [] {
          PolicyTargetsExist(env, d.value, st, view.site, plan.value);
          ExecuteKeepsRedirects(env, d.value, view.site, st, plan.value[0], id);
        }
      }
    }
  }

  lemma DeletionMovesNothing(st: Store, site: Site, m: Mutation)
    requires RemovesLeaf(st, site, m)
    ensures MovesNothing(m) && TargetsHere(st, site, m)
  {
  }

  lemma DeleteRouteKeepsRedirects(env: Env, st: Store)
    requires RedirectsLocal(st)
    ensures RedirectsLocal(DeleteRouteResult(env, st).store)
  {
    hide GraphOf, TreeOk, Execute, ViewGateway, RedirectsLocal, RemovesLeaf, TargetsHere, DeletionPlan;
    var view := ViewGateway(env, st, None);
    if view.GatewayReady? && TreeOk(env, st, view.site) && DeletionPlan(GraphOf(env, st, view.site)) != [] {
      var m := DeletionPlan(GraphOf(env, st, view.site))[0];
      DeletionRemovesLeaves(env, st, view.site);
      DeletionMovesNothing(st, view.site, m);
      ExecuteKeepsRedirects(env, NO_ROUTE, view.site, st, m, "");
    }
  }

  lemma DeleteGatewayKeepsRedirects(env: Env, st: Store)
    requires RedirectsLocal(st)
    ensures RedirectsLocal(DeleteGatewayResult(env, st).store)
  {
    hide Deletable, Remove, RemovesGatewayLeaf, FullPlan, RedirectsLocal;
    var found := FindLoadBalancer(env, st.loadBalancers);
    if found.Found? && Deletable(env, st, found.id) {
      GatewayDeletionTail(env, st, found.id);
      RemoveKeepsRedirects(st, found.id, FullPlan(st, found.id)[0]);
    }
  }

  /** Only listeners, load balancers and Floating IPs change, and listeners keep
      their place. */
  ghost predicate GatewayOnly(st: Store, st': Store)
  {
    st' == st.(loadBalancers := st'.loadBalancers, listeners := st'.listeners, floatingIPs := st'.floatingIPs) &&
    forall l :: l in st.listeners ==> l in st'.listeners && st'.listeners[l].parent == st.listeners[l].parent
  }

  lemma GatewayOnlyKeepsRedirects(st: Store, st': Store)
    requires RedirectsLocal(st) && GatewayOnly(st, st')
    ensures RedirectsLocal(st')
  {
  }

  lemma SameListeners(st: Store, lbs: map<Id, LoadBalancer>, floatingIPs: map<Id, FloatingIP>)
    ensures GatewayOnly(st, st.(loadBalancers := lbs)) && GatewayOnly(st, st.(floatingIPs := floatingIPs)) && GatewayOnly(st, st)
  {
  }

  lemma RaisedListenerWrite(st: Store, l: Id)
    requires l in st.listeners
    ensures GatewayOnly(st, EnableListener(st, l))
  {
  }

  lemma NewListenerWrite(st: Store, id: Id, listener: Listener)
    requires id !in st.listeners
    ensures GatewayOnly(st, st.(listeners := st.listeners[id := listener]))
  {
  }

  lemma AdminIsGatewayOnly(env: Env, spec: GatewaySpec, st: Store, lb: Id, listener: Lookup, choice: Choice)
    requires lb in st.loadBalancers && (listener.Found? ==> listener.id in st.listeners) && choice.id !in st.listeners
    ensures GatewayOnly(st, EnsureGatewayAdmin(env, spec, st, lb, listener, choice).store)
  {
    hide HasRouteResources, GatewayOnly, EnableListener, NewListener;
    SameListeners(st, EnableLoadBalancer(st, lb).loadBalancers, st.floatingIPs);
    NewListenerWrite(st, choice.id, NewListener(env, spec, lb));
    if listener.Found? {
      RaisedListenerWrite(st, listener.id);
    }
  }

  lemma EnsureGatewayIsGatewayOnly(env: Env, spec: GatewaySpec, st: Store, choice: Choice)
    requires choice.id !in st.listeners
    ensures GatewayOnly(st, EnsureGatewayResult(env, spec, st, choice).store)
  {
    hide FindLoadBalancer, FindListener, FloatingIPStateOf, GatewayTreeOk, Blank, EnsureGatewayAdmin, GatewayOnly,
         NewLoadBalancer, NewFloatingIP;
    SameListeners(st, st.loadBalancers[choice.id := NewLoadBalancer(env, spec, choice)], st.floatingIPs);
    var found := FindLoadBalancer(env, st.loadBalancers);
    if found.Found? && !FindListener(env, st.listeners, found.id).Conflict? {
      var port := st.loadBalancers[found.id].vipPort;
      var state := FloatingIPStateOf(env, st.floatingIPs, port, spec.externalNetwork);
      AdminIsGatewayOnly(env, spec, st, found.id, FindListener(env, st.listeners, found.id), choice);
      SameListeners(st, st.loadBalancers, st.floatingIPs[choice.id := NewFloatingIP(env, port, spec.externalNetwork)]);
      if state.Superfluous? {
        SameListeners(st, st.loadBalancers, st.floatingIPs - {state.first});
      }
    }
  }

  lemma EnsureGatewayKeepsRedirects(env: Env, spec: GatewaySpec, st: Store, choice: Choice)
    requires RedirectsLocal(st) && Fresh(st, choice.id)
    ensures RedirectsLocal(EnsureGatewayResult(env, spec, st, choice).store)
  {
    assert choice.id !in st.listeners;
    hide RedirectsLocal, EnsureGatewayResult, Fresh, GatewayOnly;
    EnsureGatewayIsGatewayOnly(env, spec, st, choice);
    GatewayOnlyKeepsRedirects(st, EnsureGatewayResult(env, spec, st, choice).store);
  }

  /** Every operation of every identity keeps redirects local. */
  lemma OperationKeepsRedirects(env: Env, op: Operation, st: Store)
    requires LawfulNet(env.net) && RedirectsLocal(st) && "" !in st.listeners && FreshFor(op, st)
    ensures RedirectsLocal(Perform(env, op, st).store)
  {
    hide LawfulNet, Fresh, RedirectsLocal, EnsureGatewayResult, EnsureRouteResult, DeleteRouteResult, DeleteGatewayResult;
    match op {
      case EnsureGatewayOp(spec, choice) => EnsureGatewayKeepsRedirects(env, spec, st, choice);
      case EnsureRouteOp(spec, id) => EnsureRouteKeepsRedirects(env, spec, st, id);
      case DeleteRouteOp => DeleteRouteKeepsRedirects(env, st);
      case DeleteGatewayOp => DeleteGatewayKeepsRedirects(env, st);
    }
  }

  lemma {:induction false} RunKeepsRedirects(states: seq<Store>, turns: seq<Turn>)
    requires IsOperationRun(states, turns) && RedirectsLocal(states[0]) && "" !in states[0].listeners
    ensures RedirectsLocal(states[|turns|]) && "" !in states[|turns|].listeners
    decreases |turns|
  {
    hide LawfulNet, FreshFor, Perform, RedirectsLocal;
    if turns != [] {
      OperationKeepsRedirects(turns[0].env, turns[0].op, states[0]);
      NoEmptyListener(turns[0].env, turns[0].op, states[0]);
      RunKeepsRedirects(states[1..], turns[1..]);
    }
  }

  // ----- removed pools -----

  ghost predicate Unreferenced(st: Store, p: Id)
  {
    forall q :: q in st.policies ==> st.policies[q].redirectPool != p
  }

  lemma ExecuteRemovesPool(env: Env, d: Desired, site: Site, st: Store, m: Mutation, id: Id, p: Id)
    requires p in st.pools && p !in Execute(env, d, site, st, m, id).pools
    ensures m == DeletePool(p)
  {
  }

  lemma DeleteRoutePoolUnreferenced(env: Env, st: Store, p: Id)
    requires RedirectsLocal(st) && "" !in st.listeners
    requires p in st.pools && p !in DeleteRouteResult(env, st).store.pools
    ensures Unreferenced(st, p)
  {
    hide GraphOf, TreeOk, ViewGateway, RedirectsLocal, RemovesLeaf, DeletionPlan, OnlyListener, Execute;
    var view := ViewGateway(env, st, None);
    var m := DeletionPlan(GraphOf(env, st, view.site))[0];
    DeletionRemovesLeaves(env, st, view.site);
    SiteListeners(env, st, None, view.site);
    ExecuteRemovesPool(env, NO_ROUTE, view.site, st, m, "", p);
    forall q | q in st.policies ensures st.policies[q].redirectPool != p {
      DeletedPoolUnreferenced(st, view.site, p, q);
    }
  }

  lemma RemoveRemovesPool(st: Store, m: Removal, p: Id)
    requires p in st.pools && p !in Remove(st, m).pools
    ensures m == RemovePool(p)
  {
  }

  lemma DeleteGatewayPoolUnreferenced(env: Env, st: Store, p: Id)
    requires RedirectsLocal(st)
    requires p in st.pools && p !in DeleteGatewayResult(env, st).store.pools
    ensures Unreferenced(st, p)
  {
    hide Deletable, RemovesGatewayLeaf, FullPlan, RedirectsLocal, Remove, FindLoadBalancer;
    var lb := FindLoadBalancer(env, st.loadBalancers).id;
    GatewayDeletionTail(env, st, lb);
    RemoveRemovesPool(st, FullPlan(st, lb)[0], p);
    forall q | q in st.policies ensures st.policies[q].redirectPool != p {
      RemovedPoolUnreferenced(st, lb, p, q);
    }
  }

  lemma EnsureRouteKeepsPools(env: Env, spec: RouteSpec, st: Store, id: Id, p: Id)
    requires LawfulNet(env.net) && "" !in st.listeners && p in st.pools
    ensures p in EnsureRouteResult(env, spec, st, id).store.pools
  {
    hide LawfulNet, DesiredFor, EnsurePlan, GraphOf, TreeOk, Execute, ViewGateway, DesiredOk, FloatingIPStateOf;
    var d := DesiredFor(env.net, spec);
    var view := ViewGateway(env, st, Some(spec));
    if d.Some? && view.GatewayReady? {
      ReadySite(env, st, spec, view.site);
      SiteListeners(env, st, Some(spec), view.site);
      DesiredForOk(env.net, spec, d.value);
      if TreeOk(env, st, view.site) {
        var plan := EnsurePlan(env.net, d.value, GraphOf(env, st, view.site));
        if plan.Some? && plan.value != [] {
          PlanKeepsPools(env, d.value, st, view.site, plan.value);
          ExecuteKeepsPools(env, d.value, view.site, st, plan.value[0], id, p);
        }
      }
    }
  }

  lemma ExecuteKeepsPools(env: Env, d: Desired, site: Site, st: Store, m: Mutation, id: Id, p: Id)
    requires !m.DeletePool? && p in st.pools
    ensures p in Execute(env, d, site, st, m, id).pools
  {
  }

  /** Whatever operation removes a pool, in any state a run reaches from local
      redirects, no policy redirects to it. */
  lemma RemovedPoolsUnreferenced(states: seq<Store>, turns: seq<Turn>, env: Env, op: Operation, p: Id)
    requires IsOperationRun(states, turns) && RedirectsLocal(states[0]) && "" !in states[0].listeners
    requires LawfulNet(env.net) && FreshFor(op, states[|turns|])
    requires p in states[|turns|].pools && p !in Perform(env, op, states[|turns|]).store.pools
    ensures Unreferenced(states[|turns|], p)
  {
    hide LawfulNet, RedirectsLocal, EnsureGatewayResult, EnsureRouteResult, DeleteRouteResult, DeleteGatewayResult,
         Unreferenced;
    RunKeepsRedirects(states, turns);
    var st := states[|turns|];
    match op {
      case DeleteRouteOp => DeleteRoutePoolUnreferenced(env, st, p);
      case DeleteGatewayOp => DeleteGatewayPoolUnreferenced(env, st, p);
      case EnsureRouteOp(spec, id) => EnsureRouteKeepsPools(env, spec, st, id, p);
      case EnsureGatewayOp(spec, choice) => EnsureGatewayIsGatewayOnly(env, spec, st, choice);
    }
  }
}
