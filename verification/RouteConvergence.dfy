/** Repeatedly executing only the head of a freshly built ensure plan reaches the
    desired route, whatever IDs the cloud assigns. */
module RouteConvergence {
  import opened Ownership
  import opened Octavia
  import opened RouteModel
  import opened RouteTree
  import opened RoutePlan
  import opened RouteSteps
  import opened PolicyViews
  import opened RouteProgress
  import opened RouteHead

  // ----- the desired end state -----

  predicate RuleInPlace(w: Option<DesiredRule>, v: RuleView)
  {
    if w.None? then v.NoRule? else v.HasRule? && RuleSettled(w.value, v.rule)
  }

  /** The policy of a role is exactly what the route wants there, and enabled. */
  predicate PolicyInPlace(d: Desired, role: Role, v: PolicyView, pool: Id)
  {
    var w := WantedPolicy(d, role);
    if w.None? then v.NoPolicy?
    else
      v.HasPolicy? && v.policy.up && PolicySettled(w.value, v.policy, pool) &&
      RuleInPlace(WantedRule(d, w.value, RulePath), v.path) && RuleInPlace(WantedRule(d, w.value, RuleHost), v.host)
  }

  /** The pool has exactly the desired members, all enabled and on the desired subnet. */
  ghost predicate MembersInPlace(env: Env, d: Desired, members: Members, pool: Id)
  {
    (forall m :: m in MembersOf(members, pool) ==>
      members[m].up && members[m].subnet == d.spec.memberSubnet &&
      exists e :: e in d.members && KeyOf(env.net, e) == MemberText(env.net, members[m])) &&
    (forall e :: e in d.members ==>
      exists m :: m in MembersOf(members, pool) && MemberText(env.net, members[m]) == KeyOf(env.net, e))
  }

  ghost predicate PoolInPlace(env: Env, d: Desired, st: Store, site: Site, p: Id)
  {
    PoolsOf(st.pools, site.loadBalancer) == {p} && PoolSettled(st.pools[p]) && MembersInPlace(env, d, st.members, p) &&
    exists m :: MonitorsOf(st.monitors, p) == {m} && MonitorSettled(d, st.monitors[m])
  }

  ghost predicate Converged(env: Env, d: Desired, st: Store, site: Site)
  {
    exists p :: PoolInPlace(env, d, st, site, p) &&
      PolicyInPlace(d, PolicyExact, View(env, st, site, PolicyExact), p) &&
      PolicyInPlace(d, PolicyPrefix, View(env, st, site, PolicyPrefix), p)
  }

  /** Immutable fields the reconciler cannot repair have the right value. */
  ghost predicate ProtocolsOk(st: Store, site: Site)
  {
    BeneathHTTP(st.pools, st.monitors, site.loadBalancer)
  }

  ghost predicate BeneathHTTP(pools: Pools, monitors: Monitors, lb: Id)
  {
    forall p :: p in PoolsOf(pools, lb) ==>
      pools[p].protocol == HTTP && forall m :: m in MonitorsOf(monitors, p) ==> monitors[m].monitorType == HTTPMonitor
  }

  // ----- an empty plan means converged -----

  lemma MembersCostNothing(env: Env, d: Desired, members: Members, pool: Id)
    requires LawfulNet(env.net) && DesiredOk(env.net, d) && MembersOk(env, members, pool)
    ensures MemberCost(env, d, members, pool) == 0 <==> MembersInPlace(env, d, members, pool)
  {
    hide MemberOk, MemberText, LawfulNet, ByKey;
    ByKeyElements(env.net, d.members);
    var wanted := ByKey(env.net, d.members);
    assert forall k :: k in wanted <==> exists e :: e in d.members && KeyOf(env.net, e) == k;
    if MembersInPlace(env, d, members, pool) {
      assert StaleMembers(env, d, members, pool) == {} && DownMembers(env, d, members, pool) == {};
      forall k | k in wanted ensures Covered(env, d, members, pool, k) {
        var e :| e in d.members && KeyOf(env.net, e) == k;
        var m :| m in MembersOf(members, pool) && MemberText(env.net, members[m]) == k;
        assert m !in StaleMembers(env, d, members, pool);
      }
      assert MissingKeys(env, d, members, pool) == {};
    }
    if MemberCost(env, d, members, pool) == 0 {
      forall m | m in MembersOf(members, pool) ensures !Stale(env, d, members[m]) && members[m].up {
        assert m !in StaleMembers(env, d, members, pool) && m !in DownMembers(env, d, members, pool);
      }
      forall e | e in d.members
        ensures exists m :: m in MembersOf(members, pool) && MemberText(env.net, members[m]) == KeyOf(env.net, e)
      {
        assert KeyOf(env.net, e) !in MissingKeys(env, d, members, pool);
        assert Covered(env, d, members, pool, KeyOf(env.net, e));
      }
    }
  }

  lemma NonPolicyCostsNothing(env: Env, d: Desired, st: Store, site: Site)
    requires LawfulNet(env.net) && DesiredOk(env.net, d) && TreeOk(env, st, site)
    ensures NonPolicyDiff(env, d, st, site) == 0 <==> PoolInPlace(env, d, st, site, PoolId(st, site))
  {
    hide LawfulNet, DesiredOk, PolicyTreeOk, MemberCost, MembersInPlace, MembersOk, MonitorSettled, PoolOk;
    var p := PoolAt(st.pools, site.loadBalancer);
    if p.Some? {
      TheOnlyPool(env, st, site, p.value);
      MembersCostNothing(env, d, st.members, p.value);
      var m := MonitorAt(st.monitors, p.value);
      if m.Some? {
        assert MonitorsOf(st.monitors, p.value) == {m.value};
      }
    } else {
      assert PoolsOf(st.pools, site.loadBalancer) == {};
    }
  }

  lemma PolicyCostsNothing(d: Desired, role: Role, v: PolicyView, pool: Id)
    ensures PolicyInPlace(d, role, v, pool) <==> PolicyCost(d, role, v, pool) == 0 && (v.HasPolicy? ==> v.policy.up)
  {
    hide RuleSettled, PolicySettled, FindPolicy, FindRule, RulesFor;
  }

  lemma EverythingUp(env: Env, d: Desired, st: Store, site: Site)
    requires TreeOk(env, st, site) && site.listener != "" && d.policies == PoliciesFor(d.spec)
    requires PolicyDiff(env, d, st, site) == 0
    ensures EnableStep(d.policies, PoliciesSeen(env, st, site.listener)) == [] <==>
            Unlit(View(env, st, site, PolicyExact)) == 0 && Unlit(View(env, st, site, PolicyPrefix)) == 0
  {
    hide PoolTreeOk, PolicyTreeOk, PoliciesSeen, EnableStep, RolePolicy, RuleCost, PolicySettled, RulesFor, FindRule,
         PoliciesFor, FindPolicy;
    var seen := PoliciesSeen(env, st, site.listener);
    EnableStepSound(d.policies, seen);
    PoliciesSeenRoles(env, st, site);
    if EnableStep(d.policies, seen) != [] {
      var i :| 0 <= i < |seen| && !seen[i].policy.up && EnableStep(d.policies, seen) == [EnablePolicy(seen[i].id)];
      SwitchSeen(env, st, site, i);
    } else {
      forall role | IsPolicyRole(role) ensures Unlit(View(env, st, site, role)) == 0 {
        var v := View(env, st, site, role);
        if v.HasPolicy? {
          ViewedPolicy(env, st, site, role);
          var i :| 0 <= i < |seen| && seen[i].id == v.id;
          assert seen[i].role == role && WantedPolicy(d, role).Some?;
        }
      }
    }
  }

  /** An ensure plan is empty exactly when the route has converged. */
  lemma PlanEmptyIff(env: Env, d: Desired, st: Store, site: Site, plan: seq<Mutation>)
    requires LawfulNet(env.net) && DesiredOk(env.net, d) && TreeOk(env, st, site) && site.listener != ""
    requires EnsurePlan(env.net, d, GraphOf(env, st, site)) == Some(plan)
    ensures plan == [] <==> Converged(env, d, st, site)
  {
    hide LawfulNet, PoolTreeOk, PolicyTreeOk, PoliciesSeen, NonPolicyPlan, PolicyPlan, NonPolicyDiff, PolicyCost,
         DisableSteps, EnableStep, EnsurePlan, GraphOf, PolicyInPlace, PoolInPlace, View;
    PlanShape(env, d, st, site, plan);
    NonPolicyHead(env, d, st, site, NonPolicyPlan(env.net, d, GraphOf(env, st, site)).value);
    PolicyPlanHead(env, d, st, site);
    NonPolicyCostsNothing(env, d, st, site);
    var pool := PoolId(st, site);
    PolicyCostsNothing(d, PolicyExact, View(env, st, site, PolicyExact), pool);
    PolicyCostsNothing(d, PolicyPrefix, View(env, st, site, PolicyPrefix), pool);
    if PolicyDiff(env, d, st, site) == 0 {
      EverythingUp(env, d, st, site);
    }
    forall p | PoolInPlace(env, d, st, site, p) ensures p == pool {
      PoolInPlaceIs(env, d, st, site, p);
    }
  }

  lemma PoolInPlaceIs(env: Env, d: Desired, st: Store, site: Site, p: Id)
    requires PoolInPlace(env, d, st, site, p)
    ensures PoolId(st, site) == p
  {
  }

  // ----- one call and whole runs -----

  /** One reconciliation: observe, plan, execute only the head. */
  ghost function EnsureStep(env: Env, d: Desired, site: Site, st: Store, id: Id): Store
  {
    if !TreeOk(env, st, site) then st
    else
      var plan := EnsurePlan(env.net, d, GraphOf(env, st, site));
      if plan.Some? && plan.value != [] then Execute(env, d, site, st, plan.value[0], id) else st
  }

  lemma PlanDefined(env: Env, d: Desired, st: Store, site: Site)
    requires TreeOk(env, st, site)
    ensures EnsurePlan(env.net, d, GraphOf(env, st, site)).Some? <==> ProtocolsOk(st, site)
  {
    hide PolicyTreeOk, PoliciesSeen, MembersOk, PoolOk, MonitorOk, MemberSteps, MembersLeft, MonitorSteps, PolicyPlan;
    var p := PoolAt(st.pools, site.loadBalancer);
    if p.Some? {
      TheOnlyPool(env, st, site, p.value);
      var m := MonitorAt(st.monitors, p.value);
      assert m.Some? ==> MonitorsOf(st.monitors, p.value) == {m.value};
    }
  }

  /** The ensure plan never removes the pool or the monitor. */
  lemma DeletesNotJustified(env: Env, d: Desired, st: Store, site: Site, m: Mutation)
    requires Justified(env, d, st, site, m)
    ensures !m.DeleteMonitor? && !m.DeletePool?
  {
  }

  lemma AddPoolHTTP(env: Env, pools: Pools, monitors: Monitors, lb: Id, id: Id)
    requires BeneathHTTP(pools, monitors, lb) && forall x :: x in monitors ==> monitors[x].parent != id
    ensures BeneathHTTP(pools[id := NewPool(env, lb)], monitors, lb)
  {
    assert MonitorsOf(monitors, id) == {};
  }

  lemma RewritePoolHTTP(pools: Pools, monitors: Monitors, lb: Id, p: Id, pool: Pool)
    requires BeneathHTTP(pools, monitors, lb) && p in pools
    requires pool.parent == pools[p].parent && pool.protocol == pools[p].protocol
    ensures BeneathHTTP(pools[p := pool], monitors, lb)
  {
    assert PoolsOf(pools[p := pool], lb) == PoolsOf(pools, lb);
  }

  lemma WriteMonitorHTTP(pools: Pools, monitors: Monitors, lb: Id, x: Id, monitor: Monitor)
    requires BeneathHTTP(pools, monitors, lb) && monitor.monitorType == HTTPMonitor
    ensures BeneathHTTP(pools, monitors[x := monitor], lb)
  {
    assert forall p, m :: m in MonitorsOf(monitors[x := monitor], p) && m != x ==> m in MonitorsOf(monitors, p);
  }

  lemma RepairMonitorHTTP(d: Desired, pools: Pools, monitors: Monitors, lb: Id, x: Id)
    requires BeneathHTTP(pools, monitors, lb) && x in monitors
    ensures BeneathHTTP(pools, monitors[x := RepairedMonitor(d, monitors[x])], lb)
  {
    var monitors' := monitors[x := RepairedMonitor(d, monitors[x])];
    assert forall p :: MonitorsOf(monitors', p) == MonitorsOf(monitors, p);
  }

  lemma ProtocolsKept(env: Env, d: Desired, st: Store, site: Site, m: Mutation, id: Id)
    requires TreeOk(env, st, site) && ProtocolsOk(st, site) && Justified(env, d, st, site, m) && Fresh(st, id)
    ensures ProtocolsOk(Execute(env, d, site, st, m, id), site)
  {
    hide TreeOk, Justified, BeneathHTTP;
    DeletesNotJustified(env, d, st, site, m);
    assert forall x :: x in st.monitors ==> st.monitors[x].parent != id;
    match m {
      case CreatePool => AddPoolHTTP(env, st.pools, st.monitors, site.loadBalancer, id);
      case UpdatePool(p) =>
        if p in st.pools {
          RewritePoolHTTP(st.pools, st.monitors, site.loadBalancer, p, st.pools[p].(lbMethod := RoundRobin, up := true));
        }
      case CreateMonitor(p) => WriteMonitorHTTP(st.pools, st.monitors, site.loadBalancer, id, NewMonitor(env, d, p));
      case UpdateMonitor(x, _) =>
        if x in st.monitors {
          RepairMonitorHTTP(d, st.pools, st.monitors, site.loadBalancer, x);
        }
      case _ =>
    }
  }

  /** One call either leaves a converged route alone or gets strictly closer,
      and never produces a tree the next observation rejects. */
  lemma EnsureStepProgress(env: Env, d: Desired, st: Store, site: Site, id: Id)
    requires LawfulOwner(env.own) && LawfulNet(env.net) && DesiredOk(env.net, d)
    requires TreeOk(env, st, site) && ProtocolsOk(st, site) && site.listener != "" && Fresh(st, id)
    ensures var st' := EnsureStep(env, d, site, st, id);
            TreeOk(env, st', site) && ProtocolsOk(st', site) &&
            (Converged(env, d, st, site) ==> st' == st) &&
            (!Converged(env, d, st, site) ==> Measure(env, d, st', site) < Measure(env, d, st, site))
  {
    hide LawfulOwner, LawfulNet, DesiredOk, TreeOk, ProtocolsOk, Fresh, Converged, Measure, Justified, Execute,
         EnsurePlan, GraphOf;
    PlanDefined(env, d, st, site);
    var plan := EnsurePlan(env.net, d, GraphOf(env, st, site)).value;
    PlanEmptyIff(env, d, st, site, plan);
    if plan != [] {
      PlanHeadJustified(env, d, st, site, plan);
      StepDecreases(env, d, st, site, plan[0], id);
      ProtocolsKept(env, d, st, site, plan[0], id);
    }
  }

  /** What happens at one moment of a run: the load balancer is still pending and
      the call returns early, or the call acts and the cloud assigns `id`. */
  datatype Tick = Busy | Call(id: Id)

  ghost predicate TickStep(env: Env, d: Desired, site: Site, st: Store, tick: Tick, st': Store)
  {
    if tick.Busy? then st' == st else Fresh(st, tick.id) && st' == EnsureStep(env, d, site, st, tick.id)
  }

  ghost predicate IsRun(env: Env, d: Desired, site: Site, states: seq<Store>, ticks: seq<Tick>)
    decreases |ticks|
  {
    |states| == |ticks| + 1 &&
    (ticks == [] ||
     (TickStep(env, d, site, states[0], ticks[0], states[1]) && IsRun(env, d, site, states[1..], ticks[1..])))
  }

  function Calls(ticks: seq<Tick>): nat
  {
    if ticks == [] then 0 else (if ticks[0].Call? then 1 else 0) + Calls(ticks[1..])
  }

  /** Convergence: with a fixed desired route and no other writer, every run with
      as many acting calls as the initial distance ends in the desired state, and
      every state on the way is one the next observation accepts. */
  lemma {:induction false} Convergence(env: Env, d: Desired, site: Site, states: seq<Store>, ticks: seq<Tick>)
    requires LawfulOwner(env.own) && LawfulNet(env.net) && DesiredOk(env.net, d) && site.listener != ""
    requires IsRun(env, d, site, states, ticks) && TreeOk(env, states[0], site) && ProtocolsOk(states[0], site)
    ensures forall i :: 0 <= i < |states| ==> TreeOk(env, states[i], site) && ProtocolsOk(states[i], site)
    ensures Calls(ticks) >= Measure(env, d, states[0], site) ==> Converged(env, d, states[|ticks|], site)
    ensures Converged(env, d, states[0], site) ==> forall i :: 0 <= i < |states| ==> states[i] == states[0]
    decreases |ticks|
  {
    hide LawfulOwner, LawfulNet, DesiredOk, TreeOk, ProtocolsOk, Fresh, Converged, Measure, EnsureStep;
    if ticks == [] {
      if Measure(env, d, states[0], site) == 0 {
        ZeroIsConverged(env, d, states[0], site);
      }
    } else {
      if ticks[0].Call? {
        EnsureStepProgress(env, d, states[0], site, ticks[0].id);
      }
      Convergence(env, d, site, states[1..], ticks[1..]);
      forall i | 1 <= i < |states| ensures states[i] == states[1..][i - 1] {
      }
    }
  }

  lemma ZeroIsConverged(env: Env, d: Desired, st: Store, site: Site)
    requires LawfulOwner(env.own) && LawfulNet(env.net) && DesiredOk(env.net, d) && site.listener != ""
    requires TreeOk(env, st, site) && ProtocolsOk(st, site) && Measure(env, d, st, site) == 0
    ensures Converged(env, d, st, site)
  {
    hide LawfulNet, DesiredOk, TreeOk, PolicyCost, NonPolicyDiff, PolicyInPlace, PoolInPlace, View;
    NonPolicyCostsNothing(env, d, st, site);
    PolicyCostsNothing(d, PolicyExact, View(env, st, site, PolicyExact), PoolId(st, site));
    PolicyCostsNothing(d, PolicyPrefix, View(env, st, site, PolicyPrefix), PoolId(st, site));
  }

  /** From nothing, at most 43 mutations plus one per member are needed. */
  lemma DistanceBound(env: Env, d: Desired, st: Store, site: Site)
    ensures PoolAt(st.pools, site.loadBalancer).None? ==> Measure(env, d, st, site) <= |ByKey(env.net, d.members)| + 43
  {
    hide PolicyCost, View;
    CostBound(d, PolicyExact, View(env, st, site, PolicyExact), PoolId(st, site));
    CostBound(d, PolicyPrefix, View(env, st, site, PolicyPrefix), PoolId(st, site));
  }
}
