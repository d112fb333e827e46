/** What whole deletions leave behind: the store without the tree, and nothing else
    changed. */
module Pruning {
  import opened Octavia
  import opened RouteTree
  import opened RoutePlan
  import opened RouteSteps
  import opened RouteDeletion
  import opened GatewayTree
  import opened GatewayDeletion
  import opened Provider
  import opened AdminGating

  // ----- beneath pools and listeners -----

  ghost function MembersBeneath(members: Members, pools: set<Id>): set<Id>
  {
    set m | m in members && members[m].parent in pools
  }

  ghost function MonitorsBeneath(monitors: Monitors, pools: set<Id>): set<Id>
  {
    set m | m in monitors && monitors[m].parent in pools
  }

  ghost function PoliciesBeneath(policies: Policies, listeners: set<Id>): set<Id>
  {
    set p | p in policies && policies[p].parent in listeners
  }

  ghost function RulesBeneath(rules: Rules, policies: set<Id>): set<Id>
  {
    set r | r in rules && rules[r].parent in policies
  }

  /** Without these pools and everything beneath them. */
  ghost function WithoutPools(st: Store, pools: set<Id>): Store
  {
    st.(pools := st.pools - pools, members := st.members - MembersBeneath(st.members, pools),
        monitors := st.monitors - MonitorsBeneath(st.monitors, pools))
  }

  /** Without all policies of these listeners and their rules. */
  ghost function WithoutPolicies(st: Store, listeners: set<Id>): Store
  {
    var policies := PoliciesBeneath(st.policies, listeners);
    st.(policies := st.policies - policies, rules := st.rules - RulesBeneath(st.rules, policies))
  }

  // ----- a whole Gateway -----

  /** The store without a load balancer, everything beneath it and the Floating IPs
      at its port. */
  ghost function PrunedGateway(st: Store, lb: Id): Store
    requires lb in st.loadBalancers
  {
    var listeners := ListenersOf(st.listeners, lb);
    WithoutPolicies(WithoutPools(st, PoolsOf(st.pools, lb)), listeners)
      .(listeners := st.listeners - listeners,
        floatingIPs := st.floatingIPs - FloatingIPsOf(st.floatingIPs, st.loadBalancers[lb].vipPort),
        loadBalancers := st.loadBalancers - {lb})
  }

  lemma PolicyLeafPruned(st: Store, lb: Id, m: Removal)
    requires lb in st.loadBalancers && RemovesGatewayLeaf(st, lb, m) && (m.RemoveRule? || m.RemovePolicy?)
    ensures PrunedGateway(Remove(st, m), lb) == PrunedGateway(st, lb)
  {
    var listeners, st' := ListenersOf(st.listeners, lb), Remove(st, m);
    var before, after := PoliciesBeneath(st.policies, listeners), PoliciesBeneath(st'.policies, listeners);
    if m.RemoveRule? {
      assert RulesBeneath(st'.rules, before) == RulesBeneath(st.rules, before) - {m.id};
      assert st'.rules - RulesBeneath(st'.rules, before) == st.rules - RulesBeneath(st.rules, before);
    } else {
      assert after == before - {m.id};
      assert st'.policies - after == st.policies - before;
      assert RulesBeneath(st.rules, before) == RulesBeneath(st.rules, after) by {
        forall r | r in st.rules ensures st.rules[r].parent != m.id {
          assert r !in RulesOf(st.rules, m.id);
        }
      }
    }
  }

  lemma PoolLeafPruned(st: Store, lb: Id, m: Removal)
    requires lb in st.loadBalancers && RemovesGatewayLeaf(st, lb, m)
    requires m.RemoveMember? || m.RemoveMonitor? || m.RemovePool?
    ensures PrunedGateway(Remove(st, m), lb) == PrunedGateway(st, lb)
  {
    var st' := Remove(st, m);
    var before, after := PoolsOf(st.pools, lb), PoolsOf(st'.pools, lb);
    WithoutPoolLeaf(st, before, m);
    assert m.RemovePool? ==> after == before - {m.id};
    assert WithoutPools(st', after) == WithoutPools(st, before);
    hide WithoutPools, WithoutPolicies;
  }

  lemma WithoutPoolLeaf(st: Store, pools: set<Id>, m: Removal)
    requires m.RemoveMember? ==> m.id in st.members && st.members[m.id].parent in pools
    requires m.RemoveMonitor? ==> m.id in st.monitors && st.monitors[m.id].parent in pools
    requires m.RemovePool? ==> m.id in pools && MonitorsOf(st.monitors, m.id) == {} && MembersOf(st.members, m.id) == {}
    requires m.RemoveMember? || m.RemoveMonitor? || m.RemovePool?
    ensures WithoutPools(Remove(st, m), if m.RemovePool? then pools - {m.id} else pools) == WithoutPools(st, pools)
  {
    var st' := Remove(st, m);
    if m.RemoveMember? {
      assert MembersBeneath(st'.members, pools) == MembersBeneath(st.members, pools) - {m.id};
      assert st'.members - MembersBeneath(st'.members, pools) == st.members - MembersBeneath(st.members, pools);
    } else if m.RemoveMonitor? {
      assert MonitorsBeneath(st'.monitors, pools) == MonitorsBeneath(st.monitors, pools) - {m.id};
      assert st'.monitors - MonitorsBeneath(st'.monitors, pools) == st.monitors - MonitorsBeneath(st.monitors, pools);
    } else {
      EmptyPool(st, m.id);
      assert st'.pools - (pools - {m.id}) == st.pools - pools;
      assert MembersBeneath(st.members, pools - {m.id}) == MembersBeneath(st.members, pools);
      assert MonitorsBeneath(st.monitors, pools - {m.id}) == MonitorsBeneath(st.monitors, pools);
    }
  }

  lemma EmptyPool(st: Store, p: Id)
    requires MonitorsOf(st.monitors, p) == {} && MembersOf(st.members, p) == {}
    ensures (forall x :: x in st.members ==> st.members[x].parent != p) && (forall x :: x in st.monitors ==> st.monitors[x].parent != p)
  {
    forall x | x in st.members ensures st.members[x].parent != p {
      assert x !in MembersOf(st.members, p);
    }
    forall x | x in st.monitors ensures st.monitors[x].parent != p {
      assert x !in MonitorsOf(st.monitors, p);
    }
  }

  lemma OtherLeafPruned(st: Store, lb: Id, m: Removal)
    requires lb in st.loadBalancers && RemovesGatewayLeaf(st, lb, m) && (m.RemoveListener? || m.RemoveFloatingIP?)
    ensures PrunedGateway(Remove(st, m), lb) == PrunedGateway(st, lb)
  {
    var st' := Remove(st, m);
    if m.RemoveListener? {
      var before, after := ListenersOf(st.listeners, lb), ListenersOf(st'.listeners, lb);
      assert after == before - {m.id};
      assert st'.listeners - after == st.listeners - before;
      assert PoliciesBeneath(st.policies, after) == PoliciesBeneath(st.policies, before) by {
        forall p | p in st.policies ensures st.policies[p].parent != m.id {
          assert p !in PoliciesOf(st.policies, m.id);
        }
      }
    } else {
      var port := st.loadBalancers[lb].vipPort;
      assert FloatingIPsOf(st'.floatingIPs, port) == FloatingIPsOf(st.floatingIPs, port) - {m.id};
      assert st'.floatingIPs - FloatingIPsOf(st'.floatingIPs, port) == st.floatingIPs - FloatingIPsOf(st.floatingIPs, port);
    }
  }

  lemma LastLeafPruned(st: Store, lb: Id)
    requires lb in st.loadBalancers && RemovesGatewayLeaf(st, lb, RemoveLoadBalancer(lb))
    ensures Remove(st, RemoveLoadBalancer(lb)) == PrunedGateway(st, lb)
  {
    assert PoliciesBeneath(st.policies, {}) == {} && RulesBeneath(st.rules, {}) == {};
    assert MembersBeneath(st.members, {}) == {} && MonitorsBeneath(st.monitors, {}) == {};
    NothingLost(st);
  }

  lemma NothingLost(st: Store)
    ensures st.pools - {} == st.pools && st.members - {} == st.members && st.monitors - {} == st.monitors
    ensures st.policies - {} == st.policies && st.rules - {} == st.rules && st.listeners - {} == st.listeners
    ensures st.floatingIPs - {} == st.floatingIPs
  {
  }

  /** The exact result of deleting a Gateway: as many calls as the plan is long leave
      the store without the load balancer, everything beneath it and its Floating
      IPs, and everything else as it was. */
  lemma {:induction false} GatewayDeletionExact(env: Env, st: Store, lb: Id)
    requires ReadyToDelete(env, st, lb) && lb in st.loadBalancers
    ensures DeleteGatewaySteps(env, st, |FullPlan(st, lb)|) == PrunedGateway(st, lb)
    decreases |FullPlan(st, lb)|
  {
    hide FullPlan, ReadyToDelete, RemovesGatewayLeaf, DeleteGatewayResult, Remove, PrunedGateway;
    var m := FullPlan(st, lb)[0];
    DeletionHead(env, st, lb);
    if m.RemoveLoadBalancer? {
      LastLeafPruned(st, lb);
      assert DeleteGatewaySteps(env, Remove(st, m), 0) == Remove(st, m);
    } else {
      GatewayDeletionExact(env, Remove(st, m), lb);
      LeafPruned(st, lb, m);
    }
  }

  /** What one call of a Gateway deletion does. */
  lemma DeletionHead(env: Env, st: Store, lb: Id)
    requires ReadyToDelete(env, st, lb) && lb in st.loadBalancers
    ensures var m := FullPlan(st, lb)[0];
            RemovesGatewayLeaf(st, lb, m) && DeleteGatewayResult(env, st).store == Remove(st, m) &&
            if m.RemoveLoadBalancer? then m.id == lb && |FullPlan(st, lb)| == 1
            else lb in Remove(st, m).loadBalancers && ReadyToDelete(env, Remove(st, m), lb) && FullPlan(Remove(st, m), lb) == FullPlan(st, lb)[1..]
  {
    hide FindLoadBalancer, Deletable, FullPlan, RemovesGatewayLeaf, Remove;
    GatewayDeletionTail(env, st, lb);
    OneDeletion(env, st, lb);
    var m := FullPlan(st, lb)[0];
    if !m.RemoveLoadBalancer? {
      RemoveKeepsLoadBalancers(st, m);
    }
  }

  lemma LeafPruned(st: Store, lb: Id, m: Removal)
    requires lb in st.loadBalancers && RemovesGatewayLeaf(st, lb, m) && !m.RemoveLoadBalancer? && lb in Remove(st, m).loadBalancers
    ensures PrunedGateway(Remove(st, m), lb) == PrunedGateway(st, lb)
  {
    hide PrunedGateway, RemovesGatewayLeaf, Remove;
    if m.RemoveRule? || m.RemovePolicy? {
      PolicyLeafPruned(st, lb, m);
    } else if m.RemoveListener? || m.RemoveFloatingIP? {
      OtherLeafPruned(st, lb, m);
    } else {
      PoolLeafPruned(st, lb, m);
    }
  }

  lemma OneDeletion(env: Env, st: Store, lb: Id)
    requires ReadyToDelete(env, st, lb) && lb in st.loadBalancers
    ensures DeleteGatewayResult(env, st).store == Remove(st, FullPlan(st, lb)[0])
  {
    hide FindLoadBalancer, FullPlan, Deletable, Remove;
  }

  // ----- a route -----

  /** The store without the route's pool and policies and everything beneath them. */
  ghost function PrunedRoute(st: Store, site: Site): Store
  {
    WithoutPolicies(WithoutPools(st, PoolsOf(st.pools, site.loadBalancer)), if site.listener == "" then {} else {site.listener})
  }

  lemma RoutePolicyLeafPruned(env: Env, st: Store, site: Site, m: Mutation)
    requires RemovesLeaf(st, site, m) && (m.DisablePolicy? || m.DeleteRule? || m.DeletePolicy?)
    ensures PrunedRoute(Execute(env, NO_ROUTE, site, st, m, ""), site) == PrunedRoute(st, site)
  {
    var st' := Execute(env, NO_ROUTE, site, st, m, "");
    var l := {site.listener};
    var before, after := PoliciesBeneath(st.policies, l), PoliciesBeneath(st'.policies, l);
    if m.DisablePolicy? {
      assert after == before;
      assert st'.policies - before == st.policies - before;
    } else if m.DeleteRule? {
      assert RulesBeneath(st'.rules, before) == RulesBeneath(st.rules, before) - {m.id};
      assert st'.rules - RulesBeneath(st'.rules, before) == st.rules - RulesBeneath(st.rules, before);
    } else {
      assert after == before - {m.id};
      assert st'.policies - after == st.policies - before;
      assert RulesBeneath(st.rules, before) == RulesBeneath(st.rules, after) by {
        forall r | r in st.rules ensures st.rules[r].parent != m.id {
          assert r !in RulesOf(st.rules, m.id);
        }
      }
    }
  }

  lemma RoutePoolLeafPruned(env: Env, st: Store, site: Site, m: Mutation)
    requires RemovesLeaf(st, site, m) && (m.DeleteMember? || m.DeleteMonitor? || m.DeletePool?)
    ensures PrunedRoute(Execute(env, NO_ROUTE, site, st, m, ""), site) == PrunedRoute(st, site)
  {
    var st' := Execute(env, NO_ROUTE, site, st, m, "");
    var before, after := PoolsOf(st.pools, site.loadBalancer), PoolsOf(st'.pools, site.loadBalancer);
    var removal :=
      if m.DeleteMember? then RemoveMember(m.id, m.parent) else if m.DeleteMonitor? then RemoveMonitor(m.id, m.parent)
      else RemovePool(m.id);
    assert st' == Remove(st, removal);
    WithoutPoolLeaf(st, before, removal);
    assert m.DeletePool? ==> after == before - {m.id};
    hide WithoutPools, WithoutPolicies, Execute;
  }

  lemma EmptyRoutePruned(st: Store, site: Site)
    requires NoRouteResources(st, site)
    ensures PrunedRoute(st, site) == st
  {
    var l := if site.listener == "" then {} else {site.listener};
    assert PoliciesBeneath(st.policies, l) == {} by {
      forall p | p in st.policies ensures st.policies[p].parent !in l {
        assert site.listener != "" ==> p !in PoliciesOf(st.policies, site.listener);
      }
    }
    assert RulesBeneath(st.rules, {}) == {} && MembersBeneath(st.members, {}) == {} && MonitorsBeneath(st.monitors, {}) == {};
    NothingLost(st);
  }

  lemma LeafKinds(st: Store, site: Site, m: Mutation)
    requires RemovesLeaf(st, site, m)
    ensures m.DisablePolicy? || m.DeleteRule? || m.DeletePolicy? || m.DeleteMember? || m.DeleteMonitor? || m.DeletePool?
  {
  }

  lemma RouteStepPruned(env: Env, st: Store, site: Site)
    requires TreeOk(env, st, site) && DeletionPlan(GraphOf(env, st, site)) != []
    ensures PrunedRoute(DeleteStep(env, site, st), site) == PrunedRoute(st, site)
  {
    hide TreeOk, GraphOf, DeletionPlan, Execute, PrunedRoute, RemovesLeaf;
    DeletionRemovesLeaves(env, st, site);
    var m := DeletionPlan(GraphOf(env, st, site))[0];
    LeafKinds(st, site, m);
    if m.DisablePolicy? || m.DeleteRule? || m.DeletePolicy? {
      RoutePolicyLeafPruned(env, st, site, m);
    } else {
      RoutePoolLeafPruned(env, st, site, m);
    }
  }

  /** The exact result of deleting a route: as many calls as the plan is long leave
      the store without the route's pool and policies and what is beneath them, and
      everything else as it was. */
  lemma {:induction false} RouteDeletionExact(env: Env, st: Store, site: Site)
    requires TreeOk(env, st, site)
    ensures DeleteSteps(env, site, st, |DeletionPlan(GraphOf(env, st, site))|) == PrunedRoute(st, site)
    decreases |DeletionPlan(GraphOf(env, st, site))|
  {
    hide TreeOk, GraphOf, DeletionPlan, Execute, PrunedRoute, RemovesLeaf;
    var plan := DeletionPlan(GraphOf(env, st, site));
    EmptyDeletionPlan(env, st, site);
    if plan == [] {
      EmptyRoutePruned(st, site);
    } else {
      DeletionTail(env, NO_ROUTE, st, site, "");
      RouteDeletionExact(env, DeleteStep(env, site, st), site);
      RouteStepPruned(env, st, site);
    }
  }
}
