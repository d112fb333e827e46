/** The resources beneath a Gateway's load balancer: the checks that precede any
    Gateway mutation, and the order in which a deletion removes them. */
module GatewayTree {
  import opened Ownership
  import opened Octavia
  import opened RouteTree

  // ----- per-resource checks -----

  predicate ListenerOwned(env: Env, lb: Id, listener: Listener)
  {
    OptionalProjectOk(env.project, listener.project) && env.own.exactGateway(listener.tags, ListenerRole) &&
    AllEqual(listener.reported, lb)
  }

  predicate PolicyOwned(env: Env, listener: Id, policy: Policy)
  {
    OptionalProjectOk(env.project, policy.project) &&
    (env.own.exactGateway(policy.tags, PolicyExact) || env.own.exactGateway(policy.tags, PolicyPrefix)) &&
    (policy.reported == "" || policy.reported == listener)
  }

  predicate RuleOwned(env: Env, rule: Rule)
  {
    OptionalProjectOk(env.project, rule.project) &&
    (env.own.exactGateway(rule.tags, RulePath) || env.own.exactGateway(rule.tags, RuleHost))
  }

  predicate PoolOwned(env: Env, lb: Id, pool: Pool)
  {
    OptionalProjectOk(env.project, pool.project) && env.own.exactGateway(pool.tags, PoolRole) && AllEqual(pool.reported, lb)
  }

  predicate MonitorOwned(env: Env, pool: Id, monitor: Monitor)
  {
    OptionalProjectOk(env.project, monitor.project) && env.own.exactGateway(monitor.tags, MonitorRole) &&
    AllEqual(monitor.reported, pool)
  }

  predicate MemberOwned(env: Env, pool: Id, member: Member)
  {
    OptionalProjectOk(env.project, member.project) && env.own.exactGateway(member.tags, MemberRole) &&
    (member.reported == "" || member.reported == pool)
  }

  // ----- the whole tree -----

  ghost predicate RulesOwned(env: Env, rules: Rules, policy: Id)
  {
    forall r :: r in RulesOf(rules, policy) ==> RuleOwned(env, rules[r])
  }

  ghost predicate PoliciesOwned(env: Env, policies: Policies, rules: Rules, listener: Id)
  {
    forall p :: p in PoliciesOf(policies, listener) ==> PolicyOwned(env, listener, policies[p]) && RulesOwned(env, rules, p)
  }

  ghost predicate ListenersOwned(env: Env, st: Store, lb: Id)
  {
    forall l :: l in ListenersOf(st.listeners, lb) ==> ListenerSubtreeOwned(env, st, lb, l)
  }

  ghost predicate ListenerSubtreeOwned(env: Env, st: Store, lb: Id, l: Id)
    requires l in st.listeners
  {
    ListenerOwned(env, lb, st.listeners[l]) && PoliciesOwned(env, st.policies, st.rules, l)
  }

  ghost predicate PoolSubtreeOwned(env: Env, members: Members, monitors: Monitors, pool: Id)
  {
    (forall m :: m in MonitorsOf(monitors, pool) ==> MonitorOwned(env, pool, monitors[m])) &&
    (forall m :: m in MembersOf(members, pool) ==> MemberOwned(env, pool, members[m]))
  }

  ghost predicate PoolsOwned(env: Env, st: Store, lb: Id)
  {
    forall p :: p in PoolsOf(st.pools, lb) ==>
      PoolOwned(env, lb, st.pools[p]) && PoolSubtreeOwned(env, st.members, st.monitors, p)
  }

  /** Every resource beneath the load balancer carries the Gateway's identity. */
  ghost predicate GatewayTreeOk(env: Env, st: Store, lb: Id)
  {
    ListenersOwned(env, st, lb) && PoolsOwned(env, st, lb)
  }

  // ----- the deletion plan -----

  datatype Removal =
    | RemoveRule(id: Id, parent: Id)
    | RemovePolicy(id: Id)
    | RemoveMonitor(id: Id, parent: Id)
    | RemoveMember(id: Id, parent: Id)
    | RemovePool(id: Id)
    | RemoveListener(id: Id)
    | RemoveFloatingIP(id: Id)
    | RemoveLoadBalancer(id: Id)

  function RemoveRules(ids: seq<Id>, policy: Id): (r: seq<Removal>)
    ensures |r| == |ids| && forall i :: 0 <= i < |r| ==> r[i] == RemoveRule(ids[i], policy)
  {
    seq(|ids|, i requires 0 <= i < |ids| => RemoveRule(ids[i], policy))
  }

  function RemoveMonitors(ids: seq<Id>, pool: Id): (r: seq<Removal>)
    ensures |r| == |ids| && forall i :: 0 <= i < |r| ==> r[i] == RemoveMonitor(ids[i], pool)
  {
    seq(|ids|, i requires 0 <= i < |ids| => RemoveMonitor(ids[i], pool))
  }

  function RemoveMembers(ids: seq<Id>, pool: Id): (r: seq<Removal>)
    ensures |r| == |ids| && forall i :: 0 <= i < |r| ==> r[i] == RemoveMember(ids[i], pool)
  {
    seq(|ids|, i requires 0 <= i < |ids| => RemoveMember(ids[i], pool))
  }

  function RemoveListeners(ids: seq<Id>): (r: seq<Removal>)
    ensures |r| == |ids| && forall i :: 0 <= i < |r| ==> r[i] == RemoveListener(ids[i])
  {
    seq(|ids|, i requires 0 <= i < |ids| => RemoveListener(ids[i]))
  }

  function RemoveFloatingIPs(ids: seq<Id>): (r: seq<Removal>)
    ensures |r| == |ids| && forall i :: 0 <= i < |r| ==> r[i] == RemoveFloatingIP(ids[i])
  {
    seq(|ids|, i requires 0 <= i < |ids| => RemoveFloatingIP(ids[i]))
  }

  /** A policy after its rules. */
  ghost function PolicySubtreeRemovals(rules: Rules, policy: Id): seq<Removal>
  {
    RemoveRules(SortedIds(RulesOf(rules, policy)), policy) + [RemovePolicy(policy)]
  }

  ghost function PolicyRemovals(rules: Rules, policies: seq<Id>): seq<Removal>
  {
    if policies == [] then [] else PolicySubtreeRemovals(rules, policies[0]) + PolicyRemovals(rules, policies[1..])
  }

  ghost function RouteRemovals(policies: Policies, rules: Rules, listeners: seq<Id>): seq<Removal>
  {
    if listeners == [] then []
    else PolicyRemovals(rules, SortedPolicies(policies, listeners[0])) + RouteRemovals(policies, rules, listeners[1..])
  }

  /** Monitors, then members, then the pool. */
  ghost function PoolSubtreeRemovals(members: Members, monitors: Monitors, pool: Id): seq<Removal>
  {
    RemoveMonitors(SortedIds(MonitorsOf(monitors, pool)), pool) + RemoveMembers(SortedMembers(members, pool), pool) +
    [RemovePool(pool)]
  }

  ghost function PoolRemovals(members: Members, monitors: Monitors, pools: seq<Id>): seq<Removal>
  {
    if pools == [] then []
    else PoolSubtreeRemovals(members, monitors, pools[0]) + PoolRemovals(members, monitors, pools[1..])
  }

  /** The validated subplans, kept apart so that listeners come last. */
  datatype DeletionPlans = DeletionPlans(listeners: seq<Removal>, routes: seq<Removal>, pools: seq<Removal>)
  {
    predicate HasRouteResources()
    {
      routes != [] || pools != []
    }

    function OrderedSteps(): seq<Removal>
    {
      routes + pools + listeners
    }
  }

  ghost function PlansFor(st: Store, lb: Id): DeletionPlans
  {
    var listeners := SortedIds(ListenersOf(st.listeners, lb));
    DeletionPlans(RemoveListeners(listeners), RouteRemovals(st.policies, st.rules, listeners),
                  PoolRemovals(st.members, st.monitors, SortedIds(PoolsOf(st.pools, lb))))
  }

  // ----- building the plan as the provider does -----

  lemma Join<T>(a: seq<T>, b: seq<T>, c: seq<T>)
    ensures a + b + c == a + (b + c)
  {
  }

  method BuildPolicySubtreePlan(env: Env, rules: Rules, policy: Id) returns (r: Option<seq<Removal>>)
    ensures r.Some? <==> RulesOwned(env, rules, policy)
    ensures r.Some? ==> r.value == PolicySubtreeRemovals(rules, policy)
  {
    hide SortedIds;
    var ids := ListIds(RulesOf(rules, policy));
    var plan: seq<Removal> := [];
    for i := 0 to |ids|
      invariant forall j :: 0 <= j < i ==> RuleOwned(env, rules[ids[j]])
      invariant plan == RemoveRules(ids, policy)[..i]
    {
      if !RuleOwned(env, rules[ids[i]]) {
        return None;
      }
      plan := plan + [RemoveRule(ids[i], policy)];
    }
    forall x | x in RulesOf(rules, policy) ensures RuleOwned(env, rules[x]) {
      var i :| 0 <= i < |ids| && ids[i] == x;
    }
    r := Some(plan + [RemovePolicy(policy)]);
  }

  method BuildGatewayRoutePlan(env: Env, policies: Policies, rules: Rules, listener: Id) returns (r: Option<seq<Removal>>)
    ensures r.Some? <==> PoliciesOwned(env, policies, rules, listener)
    ensures r.Some? ==> r.value == PolicyRemovals(rules, SortedPolicies(policies, listener))
  {
    hide RulesOwned, PolicyOwned, PolicySubtreeRemovals, SortedIds;
    var ids := ListPolicies(policies, listener);
    var plan: seq<Removal> := [];
    for i := 0 to |ids|
      invariant forall j :: 0 <= j < i ==> PolicyOwned(env, listener, policies[ids[j]]) && RulesOwned(env, rules, ids[j])
      invariant plan + PolicyRemovals(rules, ids[i..]) == PolicyRemovals(rules, ids)
    {
      if !PolicyOwned(env, listener, policies[ids[i]]) {
        return None;
      }
      var subtree := BuildPolicySubtreePlan(env, rules, ids[i]);
      if subtree.None? {
        return None;
      }
      assert ids[i..][0] == ids[i] && ids[i..][1..] == ids[i + 1..];
      Join(plan, subtree.value, PolicyRemovals(rules, ids[i + 1..]));
      plan := plan + subtree.value;
    }
    assert forall p :: p in PoliciesOf(policies, listener) ==> p in ids;
    r := Some(plan);
  }

  method BuildGatewayListenerPlans(env: Env, st: Store, lb: Id)
    returns (ok: bool, listenerPlan: seq<Removal>, routePlan: seq<Removal>)
    ensures ok <==> ListenersOwned(env, st, lb)
    ensures ok ==> listenerPlan == RemoveListeners(SortedIds(ListenersOf(st.listeners, lb)))
    ensures ok ==> routePlan == RouteRemovals(st.policies, st.rules, SortedIds(ListenersOf(st.listeners, lb)))
  {
    hide ListenerSubtreeOwned, PolicyRemovals, SortedPolicies, SortedIds;
    var ids := ListIds(ListenersOf(st.listeners, lb));
    listenerPlan := [];
    routePlan := [];
    for i := 0 to |ids|
      invariant forall j :: 0 <= j < i ==> ListenerSubtreeOwned(env, st, lb, ids[j])
      invariant |listenerPlan| == i && forall j :: 0 <= j < i ==> listenerPlan[j] == RemoveListener(ids[j])
      invariant routePlan + RouteRemovals(st.policies, st.rules, ids[i..]) == RouteRemovals(st.policies, st.rules, ids)
    {
      ok, routePlan := AppendListenerRoutes(env, st, lb, ids, i, routePlan);
      if !ok {
        return false, [], [];
      }
      listenerPlan := listenerPlan + [RemoveListener(ids[i])];
    }
    assert forall l :: l in ListenersOf(st.listeners, lb) ==> l in ids;
    ok := true;
  }

  method AppendListenerRoutes(env: Env, st: Store, lb: Id, ids: seq<Id>, i: nat, routePlan: seq<Removal>)
    returns (ok: bool, plan: seq<Removal>)
    requires i < |ids| && ids[i] in ListenersOf(st.listeners, lb)
    ensures ok <==> ListenerSubtreeOwned(env, st, lb, ids[i])
    ensures ok ==> plan + RouteRemovals(st.policies, st.rules, ids[i + 1..]) ==
                   routePlan + RouteRemovals(st.policies, st.rules, ids[i..])
  {
    hide PoliciesOwned, ListenerOwned, PolicyRemovals, SortedPolicies;
    if !ListenerOwned(env, lb, st.listeners[ids[i]]) {
      return false, routePlan;
    }
    var routes := BuildGatewayRoutePlan(env, st.policies, st.rules, ids[i]);
    if routes.None? {
      return false, routePlan;
    }
    assert ids[i..][0] == ids[i] && ids[i..][1..] == ids[i + 1..];
    Join(routePlan, routes.value, RouteRemovals(st.policies, st.rules, ids[i + 1..]));
    ok, plan := true, routePlan + routes.value;
  }

  method BuildGatewayMonitorPlan(env: Env, monitors: Monitors, pool: Id) returns (r: Option<seq<Removal>>)
    ensures r.Some? <==> forall m :: m in MonitorsOf(monitors, pool) ==> MonitorOwned(env, pool, monitors[m])
    ensures r.Some? ==> r.value == RemoveMonitors(SortedIds(MonitorsOf(monitors, pool)), pool)
  {
    hide SortedIds, SortedMembers;
    var ids := ListIds(MonitorsOf(monitors, pool));
    var plan: seq<Removal> := [];
    for i := 0 to |ids|
      invariant forall j :: 0 <= j < i ==> MonitorOwned(env, pool, monitors[ids[j]])
      invariant plan == RemoveMonitors(ids, pool)[..i]
    {
      if !MonitorOwned(env, pool, monitors[ids[i]]) {
        return None;
      }
      plan := plan + [RemoveMonitor(ids[i], pool)];
    }
    forall x | x in MonitorsOf(monitors, pool) ensures MonitorOwned(env, pool, monitors[x]) {
      var i :| 0 <= i < |ids| && ids[i] == x;
    }
    r := Some(plan);
  }

  method BuildGatewayMemberPlan(env: Env, members: Members, pool: Id) returns (r: Option<seq<Removal>>)
    ensures r.Some? <==> forall m :: m in MembersOf(members, pool) ==> MemberOwned(env, pool, members[m])
    ensures r.Some? ==> r.value == RemoveMembers(SortedMembers(members, pool), pool)
  {
    hide SortedIds, SortedMembers;
    var ids := ListMembers(members, pool);
    var plan: seq<Removal> := [];
    for i := 0 to |ids|
      invariant forall j :: 0 <= j < i ==> MemberOwned(env, pool, members[ids[j]])
      invariant plan == RemoveMembers(ids, pool)[..i]
    {
      if !MemberOwned(env, pool, members[ids[i]]) {
        return None;
      }
      plan := plan + [RemoveMember(ids[i], pool)];
    }
    forall x | x in MembersOf(members, pool) ensures MemberOwned(env, pool, members[x]) {
      var i :| 0 <= i < |ids| && ids[i] == x;
    }
    r := Some(plan);
  }

  method BuildGatewayPoolSubtreePlan(env: Env, members: Members, monitors: Monitors, pool: Id)
    returns (r: Option<seq<Removal>>)
    ensures r.Some? <==> PoolSubtreeOwned(env, members, monitors, pool)
    ensures r.Some? ==> r.value == PoolSubtreeRemovals(members, monitors, pool)
  {
    hide MemberOwned, MonitorOwned;
    var monitorPlan := BuildGatewayMonitorPlan(env, monitors, pool);
    if monitorPlan.None? {
      return None;
    }
    var memberPlan := BuildGatewayMemberPlan(env, members, pool);
    if memberPlan.None? {
      return None;
    }
    r := Some(monitorPlan.value + memberPlan.value + [RemovePool(pool)]);
  }

  method BuildGatewayPoolPlan(env: Env, st: Store, lb: Id) returns (r: Option<seq<Removal>>)
    ensures r.Some? <==> PoolsOwned(env, st, lb)
    ensures r.Some? ==> r.value == PoolRemovals(st.members, st.monitors, SortedIds(PoolsOf(st.pools, lb)))
  {
    hide PoolOwned, PoolSubtreeOwned, PoolSubtreeRemovals, SortedIds;
    var ids := ListIds(PoolsOf(st.pools, lb));
    var plan: seq<Removal> := [];
    for i := 0 to |ids|
      invariant forall j :: 0 <= j < i ==>
        PoolOwned(env, lb, st.pools[ids[j]]) && PoolSubtreeOwned(env, st.members, st.monitors, ids[j])
      invariant plan + PoolRemovals(st.members, st.monitors, ids[i..]) == PoolRemovals(st.members, st.monitors, ids)
    {
      if !PoolOwned(env, lb, st.pools[ids[i]]) {
        return None;
      }
      var subtree := BuildGatewayPoolSubtreePlan(env, st.members, st.monitors, ids[i]);
      if subtree.None? {
        return None;
      }
      assert ids[i..][0] == ids[i] && ids[i..][1..] == ids[i + 1..];
      Join(plan, subtree.value, PoolRemovals(st.members, st.monitors, ids[i + 1..]));
      plan := plan + subtree.value;
    }
    assert forall p :: p in PoolsOf(st.pools, lb) ==> p in ids;
    r := Some(plan);
  }

  /** The whole tree is validated before any step is returned. */
  method BuildGatewayDeletionPlan(env: Env, st: Store, lb: Id) returns (r: Option<DeletionPlans>)
    ensures r.Some? <==> GatewayTreeOk(env, st, lb)
    ensures r.Some? ==> r.value == PlansFor(st, lb)
  {
    hide ListenersOwned, PoolsOwned;
    var ok, listenerPlan, routePlan := BuildGatewayListenerPlans(env, st, lb);
    if !ok {
      return None;
    }
    var poolPlan := BuildGatewayPoolPlan(env, st, lb);
    if poolPlan.None? {
      return None;
    }
    r := Some(DeletionPlans(listenerPlan, routePlan, poolPlan.value));
  }
}
