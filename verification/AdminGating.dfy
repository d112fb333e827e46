/** When listeners and load balancers are switched on, and whole Gateway deletions. */
module AdminGating {
  import opened Ownership
  import opened Octavia
  import opened RouteModel
  import opened RouteTree
  import opened RoutePlan
  import opened RouteSteps
  import opened RouteConvergence
  import opened GatewayTree
  import opened GatewayDeletion
  import opened Provider
  import opened Isolation

  // ----- the gate -----

  /** No route resource exists beneath the load balancer. */
  ghost predicate NothingBeneath(st: Store, lb: Id)
  {
    PoolsOf(st.pools, lb) == {} && forall l :: l in ListenersOf(st.listeners, lb) ==> PoliciesOf(st.policies, l) == {}
  }

  /** The route beneath the listener is exactly the desired one, and the Floating
      IP state is what the route's Gateway requires. */
  ghost predicate ServesExactly(env: Env, spec: RouteSpec, st: Store, site: Site)
    requires site.loadBalancer in st.loadBalancers
  {
    DesiredFor(env.net, spec).Some? && TreeOk(env, st, site) && Converged(env, DesiredFor(env.net, spec).value, st, site) &&
    FloatingIPsAsRequired(st.floatingIPs, st.loadBalancers[site.loadBalancer].vipPort, spec.externalNetwork)
  }

  ghost predicate GateOpen(env: Env, op: Operation, st: Store, lb: Id)
    requires lb in st.loadBalancers
  {
    match op
    case EnsureGatewayOp(spec, _) =>
      NothingBeneath(st, lb) && FloatingIPsAsRequired(st.floatingIPs, st.loadBalancers[lb].vipPort, spec.externalNetwork)
    case EnsureRouteOp(spec, _) =>
      exists l :: ListenersOf(st.listeners, lb) == {l} && ServesExactly(env, spec, st, Site(lb, l))
    case _ => false
  }

  ghost predicate ListenerRaised(st: Store, st': Store, l: Id)
  {
    l in st.listeners && !st.listeners[l].up && l in st'.listeners && st'.listeners[l].up
  }

  ghost predicate LoadBalancerRaised(st: Store, st': Store, lb: Id)
  {
    lb in st.loadBalancers && !st.loadBalancers[lb].up && lb in st'.loadBalancers && st'.loadBalancers[lb].up
  }

  /** Everything a step switches on is behind an open gate, and a load balancer comes
      on after its listener. */
  ghost predicate Gated(env: Env, op: Operation, st: Store, st': Store)
  {
    (forall l :: ListenerRaised(st, st', l) ==>
      st.listeners[l].parent in st.loadBalancers && GateOpen(env, op, st, st.listeners[l].parent)) &&
    (forall lb :: LoadBalancerRaised(st, st', lb) ==> GateOpen(env, op, st, lb) && ListenerUp(st, lb))
  }

  /** The load balancer has one listener, and it is already on. */
  ghost predicate ListenerUp(st: Store, lb: Id)
  {
    exists l :: ListenersOf(st.listeners, lb) == {l} && st.listeners[l].up
  }

  lemma SameSwitchesGated(env: Env, op: Operation, st: Store, st': Store)
    requires forall l :: l in st.listeners && l in st'.listeners ==> st'.listeners[l] == st.listeners[l]
    requires forall lb :: lb in st.loadBalancers && lb in st'.loadBalancers ==> st'.loadBalancers[lb] == st.loadBalancers[lb]
    ensures Gated(env, op, st, st')
  {
  }

  lemma RouteResourcesBeneath(st: Store, lb: Id)
    ensures HasRouteResources(st, lb) <==> !NothingBeneath(st, lb)
  {
    hide PlansFor;
    NoSteps(st, lb);
  }

  lemma EnableListenerGated(env: Env, op: Operation, st: Store, lb: Id, l: Id)
    requires l in ListenersOf(st.listeners, lb) && lb in st.loadBalancers && GateOpen(env, op, st, lb)
    ensures Gated(env, op, st, EnableListener(st, l))
  {
    hide GateOpen;
  }

  lemma EnableLoadBalancerGated(env: Env, op: Operation, st: Store, lb: Id)
    requires lb in st.loadBalancers && GateOpen(env, op, st, lb) && ListenerUp(st, lb)
    ensures Gated(env, op, st, EnableLoadBalancer(st, lb))
  {
    hide GateOpen, ListenerUp;
  }

  lemma RemovalGated(env: Env, op: Operation, st: Store, m: Removal)
    ensures Gated(env, op, st, Remove(st, m))
  {
    hide Gated;
    SameSwitchesGated(env, op, st, Remove(st, m));
  }

  lemma DeleteGatewayGated(env: Env, st: Store)
    ensures Gated(env, DeleteGatewayOp, st, DeleteGatewayResult(env, st).store)
  {
    hide Gated, FindLoadBalancer, Deletable, FullPlan, Remove;
    SameSwitchesGated(env, DeleteGatewayOp, st, st);
    var found := FindLoadBalancer(env, st.loadBalancers);
    if found.Found? {
      RemovalGated(env, DeleteGatewayOp, st, FullPlan(st, found.id)[0]);
    }
  }

  lemma DeleteRouteGated(env: Env, st: Store)
    ensures Gated(env, DeleteRouteOp, st, DeleteRouteResult(env, st).store)
  {
    hide Gated, DeleteRouteResult;
    DeleteRouteKeepsGateway(env, st);
    SameSwitchesGated(env, DeleteRouteOp, st, DeleteRouteResult(env, st).store);
  }

  lemma EnsureGatewayAdminGated(env: Env, spec: GatewaySpec, st: Store, lb: Id, listener: Lookup, choice: Choice)
    requires lb in st.loadBalancers && listener == FindListener(env, st.listeners, lb) && Fresh(st, choice.id)
    requires FloatingIPsAsRequired(st.floatingIPs, st.loadBalancers[lb].vipPort, spec.externalNetwork)
    ensures Gated(env, EnsureGatewayOp(spec, choice), st, EnsureGatewayAdmin(env, spec, st, lb, listener, choice).store)
  {
    hide FindListener, Gated, FloatingIPsAsRequired, HasRouteResources, NothingBeneath, EnableListener,
         EnableLoadBalancer, NewListener;
    var op := EnsureGatewayOp(spec, choice);
    RouteResourcesBeneath(st, lb);
    SameSwitchesGated(env, op, st, st);
    SameSwitchesGated(env, op, st, st.(listeners := st.listeners[choice.id := NewListener(env, spec, lb)]));
    if !HasRouteResources(st, lb) && listener.Found? {
      EnableListenerGated(env, op, st, lb, listener.id);
      if st.listeners[listener.id].up {
        assert ListenersOf(st.listeners, lb) == {listener.id};
        EnableLoadBalancerGated(env, op, st, lb);
      }
    }
  }

  lemma EnsureGatewayGated(env: Env, spec: GatewaySpec, st: Store, choice: Choice)
    requires Fresh(st, choice.id)
    ensures Gated(env, EnsureGatewayOp(spec, choice), st, EnsureGatewayResult(env, spec, st, choice).store)
  {
    hide FindLoadBalancer, FindListener, FloatingIPStateOf, GatewayTreeOk, EnsureGatewayAdmin, NewLoadBalancer, NewFloatingIP, Blank,
         FloatingIPsTrusted, FloatingIPsAsRequired, Gated;
    var op := EnsureGatewayOp(spec, choice);
    SameSwitchesGated(env, op, st, st);
    SameSwitchesGated(env, op, st, st.(loadBalancers := st.loadBalancers[choice.id := NewLoadBalancer(env, spec, choice)]));
    var found := FindLoadBalancer(env, st.loadBalancers);
    if found.Found? {
      var port := st.loadBalancers[found.id].vipPort;
      SameSwitchesGated(
        env, op, st,
        st.(floatingIPs := st.floatingIPs[choice.id := NewFloatingIP(env, port, spec.externalNetwork)]));
      var state := FloatingIPStateOf(env, st.floatingIPs, port, spec.externalNetwork);
      if state.Superfluous? {
        SameSwitchesGated(env, op, st, st.(floatingIPs := st.floatingIPs - {state.first}));
      }
      if state == AsRequired {
        EnsureGatewayAdminGated(env, spec, st, found.id, FindListener(env, st.listeners, found.id), choice);
      }
    }
  }

  lemma SiteListener(env: Env, st: Store, spec: RouteSpec, site: Site)
    requires ViewGateway(env, st, Some(spec)) == GatewayReady(site)
    ensures site.loadBalancer in st.loadBalancers && site.listener in st.listeners
    ensures ListenersOf(st.listeners, site.loadBalancer) == {site.listener}
  {
  }

  lemma RepairGated(env: Env, spec: RouteSpec, st: Store, site: Site, id: Id)
    requires ViewGateway(env, st, Some(spec)) == GatewayReady(site)
    requires site.loadBalancer in st.loadBalancers && site.listener in st.listeners
    requires DesiredFor(env.net, spec).Some? && TreeOk(env, st, site)
    requires Converged(env, DesiredFor(env.net, spec).value, st, site)
    ensures Gated(env, EnsureRouteOp(spec, id), st, RepairAdminState(env, spec, st, site).store)
  {
    hide ViewGateway, DesiredFor, TreeOk, Converged, Gated, FloatingIPStateOf, FloatingIPsAsRequired, FloatingIPsTrusted,
         EnableListener, EnableLoadBalancer;
    var op := EnsureRouteOp(spec, id);
    SameSwitchesGated(env, op, st, st);
    SiteListener(env, st, spec, site);
    var port := st.loadBalancers[site.loadBalancer].vipPort;
    if FloatingIPStateOf(env, st.floatingIPs, port, spec.externalNetwork) == AsRequired {
      assert site == Site(site.loadBalancer, site.listener);
      assert ServesExactly(env, spec, st, site);
      EnableListenerGated(env, op, st, site.loadBalancer, site.listener);
      if st.listeners[site.listener].up {
        EnableLoadBalancerGated(env, op, st, site.loadBalancer);
      }
    }
  }

  lemma EnsureRouteGated(env: Env, spec: RouteSpec, st: Store, id: Id)
    requires LawfulNet(env.net) && "" !in st.listeners
    ensures Gated(env, EnsureRouteOp(spec, id), st, EnsureRouteResult(env, spec, st, id).store)
  {
    hide LawfulNet, DesiredFor, ViewGateway, TreeOk, GraphOf, EnsurePlan, Execute, Gated, RepairAdminState, Converged,
         DesiredOk;
    var op := EnsureRouteOp(spec, id);
    SameSwitchesGated(env, op, st, st);
    var d := DesiredFor(env.net, spec);
    var view := ViewGateway(env, st, Some(spec));
    if d.Some? && view.GatewayReady? {
      var site := view.site;
      ReadySite(env, st, spec, site);
      DesiredForOk(env.net, spec, d.value);
      if TreeOk(env, st, site) {
        var plan := EnsurePlan(env.net, d.value, GraphOf(env, st, site));
        if plan == Some([]) {
          PlanEmptyIff(env, d.value, st, site, []);
          RepairGated(env, spec, st, site, id);
        } else if plan.Some? {
          ExecuteKeepsGateway(env, d.value, site, st, plan.value[0], id);
          SameSwitchesGated(env, op, st, Execute(env, d.value, site, st, plan.value[0], id));
        }
      }
    }
  }

  /** Admin-state gating: whatever the operation and the identity, an existing
      listener or load balancer is switched on only when no route resource exists
      beneath the load balancer, or the route beneath it is exactly the desired
      one; in both cases with the Floating IP state as required. A load balancer is
      switched on only after its listener. */
  lemma OperationGated(env: Env, op: Operation, st: Store)
    requires LawfulNet(env.net) && "" !in st.listeners && FreshFor(op, st)
    ensures Gated(env, op, st, Perform(env, op, st).store)
  {
    hide LawfulNet, Fresh, Gated, EnsureGatewayResult, EnsureRouteResult, DeleteRouteResult, DeleteGatewayResult;
    match op {
      case EnsureGatewayOp(spec, choice) => EnsureGatewayGated(env, spec, st, choice);
      case EnsureRouteOp(spec, id) => EnsureRouteGated(env, spec, st, id);
      case DeleteRouteOp => DeleteRouteGated(env, st);
      case DeleteGatewayOp => DeleteGatewayGated(env, st);
    }
  }

  lemma {:induction false} RunGated(states: seq<Store>, turns: seq<Turn>, i: nat)
    requires IsOperationRun(states, turns) && "" !in states[0].listeners && i < |turns|
    ensures Gated(turns[i].env, turns[i].op, states[i], states[i + 1])
    decreases |turns|
  {
    hide LawfulOwner, LawfulNet, FreshFor, Perform, Gated;
    if i == 0 {
      OperationGated(turns[0].env, turns[0].op, states[0]);
    } else {
      NoEmptyListener(turns[0].env, turns[0].op, states[0]);
      RunGated(states[1..], turns[1..], i - 1);
    }
  }

  // ----- whole Gateway deletions -----

  ghost function DeleteGatewaySteps(env: Env, st: Store, n: nat): Store
    decreases n
  {
    if n == 0 then st else DeleteGatewaySteps(env, DeleteGatewayResult(env, st).store, n - 1)
  }

  /** An active load balancer whose whole tree belongs to the Gateway. */
  ghost predicate ReadyToDelete(env: Env, st: Store, lb: Id)
  {
    FindLoadBalancer(env, st.loadBalancers) == Found(lb) && lb in st.loadBalancers &&
    st.loadBalancers[lb].status == Active && Deletable(env, st, lb)
  }

  lemma RemoveKeepsLoadBalancers(st: Store, m: Removal)
    requires !m.RemoveLoadBalancer?
    ensures Remove(st, m).loadBalancers == st.loadBalancers
  {
  }

  lemma LastRemoval(env: Env, st: Store, lb: Id)
    requires FindLoadBalancer(env, st.loadBalancers) == Found(lb)
    ensures FindLoadBalancer(env, st.loadBalancers - {lb}) == Absent
  {
    assert ListedLoadBalancers(env.own, st.loadBalancers) == {lb};
    assert ListedLoadBalancers(env.own, st.loadBalancers - {lb}) == {};
  }

  lemma DeleteGatewayAdvances(env: Env, st: Store, lb: Id)
    requires ReadyToDelete(env, st, lb)
    ensures var plan := FullPlan(st, lb);
            var st' := DeleteGatewayResult(env, st).store;
            if |plan| == 1 then FindLoadBalancer(env, st'.loadBalancers) == Absent
            else ReadyToDelete(env, st', lb) && FullPlan(st', lb) == plan[1..]
  {
    hide FindLoadBalancer, Deletable, FullPlan, RemovesGatewayLeaf, Remove;
    GatewayDeletionTail(env, st, lb);
    var m := FullPlan(st, lb)[0];
    if m.RemoveLoadBalancer? {
      LastRemoval(env, st, lb);
      assert Remove(st, m).loadBalancers == st.loadBalancers - {lb} by { RemovedLoadBalancer(st, lb); }
    } else {
      RemoveKeepsLoadBalancers(st, m);
      assert FullPlan(Remove(st, m), lb) != [];
    }
  }

  lemma RemovedLoadBalancer(st: Store, lb: Id)
    ensures Remove(st, RemoveLoadBalancer(lb)).loadBalancers == st.loadBalancers - {lb}
  {
  }

  /** Deleting a Gateway takes exactly as many calls as its plan is long; after k
      calls the remaining plan is the old one without its first k steps, and after
      the last one the next call reports Ready. */
  lemma {:induction false} GatewayDeletionRun(env: Env, st: Store, lb: Id, k: nat)
    requires ReadyToDelete(env, st, lb) && k <= |FullPlan(st, lb)|
    ensures var st' := DeleteGatewaySteps(env, st, k);
            if k == |FullPlan(st, lb)| then DeleteGatewayResult(env, st') == Result(st', Ready)
            else ReadyToDelete(env, st', lb) && FullPlan(st', lb) == FullPlan(st, lb)[k..]
    decreases k
  {
    hide FullPlan, Deletable, Remove, FindLoadBalancer;
    if k > 0 {
      DeleteGatewayAdvances(env, st, lb);
      var st1 := DeleteGatewayResult(env, st).store;
      if |FullPlan(st, lb)| > 1 {
        GatewayDeletionRun(env, st1, lb, k - 1);
      } else {
        assert DeleteGatewaySteps(env, st1, 0) == st1;
      }
    }
  }

  // ----- the Gateway deletion accepts what routes build -----

  /** A tree the route observation accepts is one the Gateway deletion accepts. */
  lemma RouteTreeIsGatewayTree(env: Env, st: Store, site: Site)
    requires LawfulOwner(env.own) && TreeOk(env, st, site) && site.listener != ""
    requires ListenersOf(st.listeners, site.loadBalancer) == {site.listener} && site.listener in st.listeners
    requires ListenerManaged(env, site.loadBalancer, st.listeners[site.listener])
    ensures GatewayTreeOk(env, st, site.loadBalancer)
  {
    hide LawfulOwner, PoolTreeOk, PolicyTreeOk, OwnPolicy, OwnRule, PolicyOwned, RuleOwned, PoolOwned, MemberOwned,
         MonitorOwned;
    forall p | p in PoliciesOf(st.policies, site.listener)
      ensures PolicyOwned(env, site.listener, st.policies[p]) && RulesOwned(env, st.rules, p)
    {
      PolicyAccepted(env, st, site, p);
    }
    forall p | p in PoolsOf(st.pools, site.loadBalancer)
      ensures PoolOwned(env, site.loadBalancer, st.pools[p]) && PoolSubtreeOwned(env, st.members, st.monitors, p)
    {
      PoolAccepted(env, st, site, p);
    }
  }

  lemma PolicyAccepted(env: Env, st: Store, site: Site, p: Id)
    requires LawfulOwner(env.own) && TreeOk(env, st, site) && site.listener != "" && p in PoliciesOf(st.policies, site.listener)
    ensures PolicyOwned(env, site.listener, st.policies[p]) && RulesOwned(env, st.rules, p)
  {
    hide PoolTreeOk, RoleAmong;
    assert PolicyOk(env, site.listener, st.policies[p]) && RulesOk(env, st.rules, p);
    RoleIsOwn(env.own, st.policies[p].tags, PolicyExact, PolicyPrefix);
    forall r | r in RulesOf(st.rules, p) ensures RuleOwned(env, st.rules[r]) {
      assert RuleOk(env, st.rules[r]);
      RoleIsOwn(env.own, st.rules[r].tags, RulePath, RuleHost);
    }
  }

  lemma PoolAccepted(env: Env, st: Store, site: Site, p: Id)
    requires LawfulOwner(env.own) && TreeOk(env, st, site) && p in PoolsOf(st.pools, site.loadBalancer)
    ensures PoolOwned(env, site.loadBalancer, st.pools[p]) && PoolSubtreeOwned(env, st.members, st.monitors, p)
  {
    hide PolicyTreeOk, MemberText;
    assert PoolOk(env, site.loadBalancer, st.pools[p]);
    assert MembersOk(env, st.members, p) && MonitorsOk(env, st.monitors, p);
  }
}
