/** Deleting a Gateway: each call removes the head of a freshly built plan, and
    what remains is exactly the tail. Only leaves are removed, the load balancer
    last. */
module GatewayDeletion {
  import opened Octavia
  import opened RouteTree
  import opened RouteDeletion
  import opened GatewayTree

  // ----- the complete plan -----

  predicate FloatingIPOwned(env: Env, f: FloatingIP)
  {
    FloatingIPProjectOk(env.project, f) && env.own.matchesDescription(f.description)
  }

  ghost predicate FloatingIPsOwned(env: Env, floatingIPs: map<Id, FloatingIP>, port: Id)
  {
    forall f :: f in FloatingIPsOf(floatingIPs, port) ==> FloatingIPOwned(env, floatingIPs[f])
  }

  /** Everything DeleteGateway validates beneath an existing load balancer. */
  ghost predicate Deletable(env: Env, st: Store, lb: Id)
    requires lb in st.loadBalancers
  {
    GatewayTreeOk(env, st, lb) && FloatingIPsOwned(env, st.floatingIPs, st.loadBalancers[lb].vipPort)
  }

  /** All removals still to come: route resources, pools, listeners, Floating IPs
      and finally the load balancer itself. */
  ghost function FullPlan(st: Store, lb: Id): (r: seq<Removal>)
    requires lb in st.loadBalancers
    ensures r != []
  {
    PlansFor(st, lb).OrderedSteps() +
    (RemoveFloatingIPs(SortedIds(FloatingIPsOf(st.floatingIPs, st.loadBalancers[lb].vipPort))) + [RemoveLoadBalancer(lb)])
  }

  function Remove(st: Store, m: Removal): Store
  {
    match m
    case RemoveRule(r, _) => st.(rules := st.rules - {r})
    case RemovePolicy(p) => st.(policies := st.policies - {p})
    case RemoveMonitor(x, _) => st.(monitors := st.monitors - {x})
    case RemoveMember(x, _) => st.(members := st.members - {x})
    case RemovePool(p) => st.(pools := st.pools - {p})
    case RemoveListener(l) => st.(listeners := st.listeners - {l})
    case RemoveFloatingIP(f) => st.(floatingIPs := st.floatingIPs - {f})
    case RemoveLoadBalancer(lb) => st.(loadBalancers := st.loadBalancers - {lb})
  }

  predicate NoRepeats(ids: seq<Id>)
  {
    forall i, j :: 0 <= i < j < |ids| ==> ids[i] != ids[j]
  }

  lemma TailNoRepeats(ids: seq<Id>)
    requires ids != [] && NoRepeats(ids)
    ensures NoRepeats(ids[1..]) && ids[0] !in ids[1..]
  {
  }

  lemma HeadTail<T>(a: seq<T>, b: seq<T>)
    requires a != []
    ensures (a + b)[0] == a[0] && (a + b)[1..] == a[1..] + b
  {
  }

  // ----- rules and policies -----

  lemma RemoveRuleHere(rules: Rules, p: Id)
    requires RulesOf(rules, p) != {}
    ensures var r := SortedIds(RulesOf(rules, p))[0];
            r in RulesOf(rules, p) && PolicySubtreeRemovals(rules, p)[0] == RemoveRule(r, p) &&
            PolicySubtreeRemovals(rules - {r}, p) == PolicySubtreeRemovals(rules, p)[1..]
  {
    var ids := SortedIds(RulesOf(rules, p));
    assert RulesOf(rules - {ids[0]}, p) == RulesOf(rules, p) - {ids[0]};
    SortedIdsTail(RulesOf(rules, p));
    HeadTail(RemoveRules(ids, p), [RemovePolicy(p)]);
    assert RemoveRules(ids[1..], p) == RemoveRules(ids, p)[1..];
  }

  lemma RemoveRuleElsewhere(rules: Rules, r: Id, p: Id)
    requires r in rules && rules[r].parent != p
    ensures PolicySubtreeRemovals(rules - {r}, p) == PolicySubtreeRemovals(rules, p)
  {
    assert RulesOf(rules - {r}, p) == RulesOf(rules, p);
  }

  lemma {:induction false} PolicyRemovalsFrame(rules: Rules, r: Id, ids: seq<Id>)
    requires r in rules && rules[r].parent !in ids
    ensures PolicyRemovals(rules - {r}, ids) == PolicyRemovals(rules, ids)
  {
    hide PolicySubtreeRemovals;
    if ids != [] {
      RemoveRuleElsewhere(rules, r, ids[0]);
      PolicyRemovalsFrame(rules, r, ids[1..]);
    }
  }

  /** The first policy of a list loses its first rule, or goes itself. */
  lemma PolicyRemovalsHead(rules: Rules, ids: seq<Id>)
    requires ids != [] && NoRepeats(ids)
    ensures PolicyRemovals(rules, ids) != []
    ensures RulesOf(rules, ids[0]) != {} ==>
              var r := SortedIds(RulesOf(rules, ids[0]))[0];
              r in RulesOf(rules, ids[0]) && PolicyRemovals(rules, ids)[0] == RemoveRule(r, ids[0]) &&
              PolicyRemovals(rules - {r}, ids) == PolicyRemovals(rules, ids)[1..]
    ensures RulesOf(rules, ids[0]) == {} ==>
              PolicyRemovals(rules, ids)[0] == RemovePolicy(ids[0]) &&
              PolicyRemovals(rules, ids[1..]) == PolicyRemovals(rules, ids)[1..]
  {
    hide NoRepeats;
    TailNoRepeats(ids);
    var rest := PolicyRemovals(rules, ids[1..]);
    HeadTail(PolicySubtreeRemovals(rules, ids[0]), rest);
    if RulesOf(rules, ids[0]) != {} {
      RemoveRuleHere(rules, ids[0]);
      PolicyRemovalsFrame(rules, SortedIds(RulesOf(rules, ids[0]))[0], ids[1..]);
    }
  }

  lemma {:induction false} RouteRemovalsRuleFrame(policies: Policies, rules: Rules, r: Id, listeners: seq<Id>)
    requires r in rules
    requires rules[r].parent in policies ==> policies[rules[r].parent].parent !in listeners
    ensures RouteRemovals(policies, rules - {r}, listeners) == RouteRemovals(policies, rules, listeners)
  {
    if listeners != [] {
      PolicyRemovalsFrame(rules, r, SortedPolicies(policies, listeners[0]));
      RouteRemovalsRuleFrame(policies, rules, r, listeners[1..]);
    }
  }

  lemma SortedPoliciesFrame(policies: Policies, p: Id, l: Id)
    requires p in policies && policies[p].parent != l
    ensures SortedPolicies(policies - {p}, l) == SortedPolicies(policies, l)
  {
    var policies' := policies - {p};
    assert PoliciesOf(policies', l) == PoliciesOf(policies, l);
    forall k ensures k in PolicyKeys(policies', l) <==> k in PolicyKeys(policies, l) {
      if k in PolicyKeys(policies', l) {
        var q :| q in PoliciesOf(policies', l) && k == PolicyKey(q, policies'[q]);
        assert k == PolicyKey(q, policies[q]);
      }
      if k in PolicyKeys(policies, l) {
        var q :| q in PoliciesOf(policies, l) && k == PolicyKey(q, policies[q]);
        assert k == PolicyKey(q, policies'[q]);
      }
    }
    assert PolicyKeys(policies', l) == PolicyKeys(policies, l);
  }

  lemma {:induction false} RouteRemovalsPolicyFrame(policies: Policies, rules: Rules, p: Id, listeners: seq<Id>)
    requires p in policies && policies[p].parent !in listeners
    ensures RouteRemovals(policies - {p}, rules, listeners) == RouteRemovals(policies, rules, listeners)
  {
    hide PolicyRemovals, SortedPolicies;
    if listeners != [] {
      SortedPoliciesFrame(policies, p, listeners[0]);
      RouteRemovalsPolicyFrame(policies, rules, p, listeners[1..]);
    }
  }

  /** What one step on the route resources does to the plan for some listeners. */
  ghost predicate RouteStepOk(policies: Policies, rules: Rules, listeners: seq<Id>, m: Removal)
    requires RouteRemovals(policies, rules, listeners) != []
  {
    match m
    case RemoveRule(r, p) =>
      p in policies && policies[p].parent in listeners && r in RulesOf(rules, p) &&
      RouteRemovals(policies, rules - {r}, listeners) == RouteRemovals(policies, rules, listeners)[1..]
    case RemovePolicy(p) =>
      p in policies && policies[p].parent in listeners && RulesOf(rules, p) == {} &&
      RouteRemovals(policies - {p}, rules, listeners) == RouteRemovals(policies, rules, listeners)[1..]
    case _ => false
  }

  lemma FirstListenerHead(policies: Policies, rules: Rules, listeners: seq<Id>)
    requires listeners != [] && PoliciesOf(policies, listeners[0]) != {}
    ensures var part := PolicyRemovals(rules, SortedPolicies(policies, listeners[0]));
            part != [] && RouteRemovals(policies, rules, listeners) != [] &&
            RouteRemovals(policies, rules, listeners)[0] == part[0] &&
            RouteRemovals(policies, rules, listeners)[1..] == part[1..] + RouteRemovals(policies, rules, listeners[1..])
  {
    hide PolicyRemovals, NoRepeats;
    var ids := SortedPolicies(policies, listeners[0]);
    ListedOnce(policies, listeners[0]);
    PolicyRemovalsHead(rules, ids);
    HeadTail(PolicyRemovals(rules, ids), RouteRemovals(policies, rules, listeners[1..]));
  }

  lemma FirstListenerRule(policies: Policies, rules: Rules, listeners: seq<Id>, p: Id)
    requires NoRepeats(listeners) && listeners != [] && PoliciesOf(policies, listeners[0]) != {}
    requires p == SortedPolicies(policies, listeners[0])[0] && RulesOf(rules, p) != {}
    ensures RouteRemovals(policies, rules, listeners) != []
    ensures RouteStepOk(policies, rules, listeners, RouteRemovals(policies, rules, listeners)[0])
  {
    hide NoRepeats, PolicyRemovals, SortedIds;
    TailNoRepeats(listeners);
    ListedOnce(policies, listeners[0]);
    PolicyRemovalsHead(rules, SortedPolicies(policies, listeners[0]));
    FirstListenerHead(policies, rules, listeners);
    RouteRemovalsRuleFrame(policies, rules, SortedIds(RulesOf(rules, p))[0], listeners[1..]);
  }

  lemma FirstListenerPolicy(policies: Policies, rules: Rules, listeners: seq<Id>, p: Id)
    requires NoRepeats(listeners) && listeners != [] && PoliciesOf(policies, listeners[0]) != {}
    requires p == SortedPolicies(policies, listeners[0])[0] && RulesOf(rules, p) == {}
    ensures RouteRemovals(policies, rules, listeners) != []
    ensures RouteStepOk(policies, rules, listeners, RouteRemovals(policies, rules, listeners)[0])
  {
    hide NoRepeats, PolicyRemovals, SortedIds;
    TailNoRepeats(listeners);
    ListedOnce(policies, listeners[0]);
    PolicyRemovalsHead(rules, SortedPolicies(policies, listeners[0]));
    FirstListenerHead(policies, rules, listeners);
    SortedPoliciesTail(policies, listeners[0]);
    RouteRemovalsPolicyFrame(policies, rules, p, listeners[1..]);
  }

  lemma ListedOnce(policies: Policies, l: Id)
    ensures NoRepeats(SortedPolicies(policies, l))
  {
  }

  lemma {:induction false} RouteStep(policies: Policies, rules: Rules, listeners: seq<Id>)
    requires NoRepeats(listeners) && RouteRemovals(policies, rules, listeners) != []
    ensures RouteStepOk(policies, rules, listeners, RouteRemovals(policies, rules, listeners)[0])
  {
    hide NoRepeats;
    if PoliciesOf(policies, listeners[0]) != {} {
      var p := SortedPolicies(policies, listeners[0])[0];
      if RulesOf(rules, p) != {} {
        FirstListenerRule(policies, rules, listeners, p);
      } else {
        FirstListenerPolicy(policies, rules, listeners, p);
      }
    } else {
      TailNoRepeats(listeners);
      SkipListener(policies, rules, listeners);
      RouteStep(policies, rules, listeners[1..]);
      RouteStepExtends(policies, rules, listeners);
    }
  }

  lemma SkipListener(policies: Policies, rules: Rules, listeners: seq<Id>)
    requires listeners != [] && PoliciesOf(policies, listeners[0]) == {}
    ensures RouteRemovals(policies, rules, listeners) == RouteRemovals(policies, rules, listeners[1..])
  {
    assert SortedPolicies(policies, listeners[0]) == [];
  }

  lemma RouteStepExtends(policies: Policies, rules: Rules, listeners: seq<Id>)
    requires listeners != [] && PoliciesOf(policies, listeners[0]) == {}
    requires RouteRemovals(policies, rules, listeners) != []
    requires RouteRemovals(policies, rules, listeners) == RouteRemovals(policies, rules, listeners[1..])
    requires RouteStepOk(policies, rules, listeners[1..], RouteRemovals(policies, rules, listeners)[0])
    ensures RouteStepOk(policies, rules, listeners, RouteRemovals(policies, rules, listeners)[0])
  {
    hide RouteRemovals;
    var m := RouteRemovals(policies, rules, listeners)[0];
    match m {
      case RemoveRule(r, p) =>
        SkipListener(policies, rules - {r}, listeners);
      case RemovePolicy(p) =>
        assert PoliciesOf(policies - {p}, listeners[0]) == {};
        SkipListener(policies - {p}, rules, listeners);
    }
  }

  lemma {:induction false} NoRouteRemovals(policies: Policies, rules: Rules, listeners: seq<Id>)
    ensures RouteRemovals(policies, rules, listeners) == [] <==>
            forall l :: l in listeners ==> PoliciesOf(policies, l) == {}
  {
    if listeners != [] {
      NoRouteRemovals(policies, rules, listeners[1..]);
      assert forall l :: l in listeners <==> l == listeners[0] || l in listeners[1..];
    }
  }

  // ----- pools -----

  lemma RemoveMonitorHere(members: Members, monitors: Monitors, p: Id)
    requires MonitorsOf(monitors, p) != {}
    ensures var m := SortedIds(MonitorsOf(monitors, p))[0];
            var part := PoolSubtreeRemovals(members, monitors, p);
            m in MonitorsOf(monitors, p) && part[0] == RemoveMonitor(m, p) &&
            PoolSubtreeRemovals(members, monitors - {m}, p) == part[1..]
  {
    hide SortedMembers, SortedIds;
    var ids := SortedIds(MonitorsOf(monitors, p));
    assert MonitorsOf(monitors - {ids[0]}, p) == MonitorsOf(monitors, p) - {ids[0]};
    SortedIdsTail(MonitorsOf(monitors, p));
    var rest := RemoveMembers(SortedMembers(members, p), p);
    HeadTail(RemoveMonitors(ids, p), rest);
    HeadTail(RemoveMonitors(ids, p) + rest, [RemovePool(p)]);
    assert RemoveMonitors(ids[1..], p) == RemoveMonitors(ids, p)[1..];
  }

  lemma MembersRemain(members: Members, monitors: Monitors, p: Id)
    requires MonitorsOf(monitors, p) == {}
    ensures PoolSubtreeRemovals(members, monitors, p) == RemoveMembers(SortedMembers(members, p), p) + [RemovePool(p)]
  {
    hide SortedMembers, RemoveMembers;
    assert RemoveMonitors(SortedIds(MonitorsOf(monitors, p)), p) == [];
  }

  lemma RemoveMembersTail(ids: seq<Id>, p: Id)
    requires ids != []
    ensures RemoveMembers(ids[1..], p) == RemoveMembers(ids, p)[1..]
  {
  }

  lemma RemoveMemberHere(members: Members, monitors: Monitors, p: Id)
    requires MonitorsOf(monitors, p) == {} && MembersOf(members, p) != {}
    ensures var m := SortedMembers(members, p)[0];
            var part := PoolSubtreeRemovals(members, monitors, p);
            part != [] && m in MembersOf(members, p) && part[0] == RemoveMember(m, p) &&
            PoolSubtreeRemovals(members - {m}, monitors, p) == part[1..]
  {
    hide SortedMembers, PoolSubtreeRemovals, MonitorsOf;
    var ids := SortedMembers(members, p);
    assert ids[0] in ids;
    SortedMembersTail(members, p);
    MembersRemain(members, monitors, p);
    MembersRemain(members - {ids[0]}, monitors, p);
    HeadTail(RemoveMembers(ids, p), [RemovePool(p)]);
    RemoveMembersTail(ids, p);
  }

  lemma SortedMembersFrame(members: Members, m: Id, p: Id)
    requires m in members && members[m].parent != p
    ensures SortedMembers(members - {m}, p) == SortedMembers(members, p)
  {
    var members' := members - {m};
    assert MembersOf(members', p) == MembersOf(members, p);
    forall k ensures k in MemberKeys(members', p) <==> k in MemberKeys(members, p) {
      if k in MemberKeys(members', p) {
        var q :| q in MembersOf(members', p) && k == MemberKey(q, members'[q]);
        assert k == MemberKey(q, members[q]);
      }
      if k in MemberKeys(members, p) {
        var q :| q in MembersOf(members, p) && k == MemberKey(q, members[q]);
        assert k == MemberKey(q, members'[q]);
      }
    }
    assert MemberKeys(members', p) == MemberKeys(members, p);
  }

  lemma {:induction false} PoolRemovalsMonitorFrame(members: Members, monitors: Monitors, m: Id, pools: seq<Id>)
    requires m in monitors && monitors[m].parent !in pools
    ensures PoolRemovals(members, monitors - {m}, pools) == PoolRemovals(members, monitors, pools)
  {
    if pools != [] {
      assert MonitorsOf(monitors - {m}, pools[0]) == MonitorsOf(monitors, pools[0]);
      PoolRemovalsMonitorFrame(members, monitors, m, pools[1..]);
    }
  }

  lemma {:induction false} PoolRemovalsMemberFrame(members: Members, monitors: Monitors, m: Id, pools: seq<Id>)
    requires m in members && members[m].parent !in pools
    ensures PoolRemovals(members - {m}, monitors, pools) == PoolRemovals(members, monitors, pools)
  {
    if pools != [] {
      SortedMembersFrame(members, m, pools[0]);
      PoolRemovalsMemberFrame(members, monitors, m, pools[1..]);
    }
  }

  /** What one step on the pools does to the plan for some pools. */
  ghost predicate PoolStepOk(members: Members, monitors: Monitors, pools: seq<Id>, m: Removal)
    requires pools != [] && PoolRemovals(members, monitors, pools) != []
  {
    match m
    case RemoveMonitor(x, p) =>
      p in pools && x in MonitorsOf(monitors, p) &&
      PoolRemovals(members, monitors - {x}, pools) == PoolRemovals(members, monitors, pools)[1..]
    case RemoveMember(x, p) =>
      p in pools && x in MembersOf(members, p) &&
      PoolRemovals(members - {x}, monitors, pools) == PoolRemovals(members, monitors, pools)[1..]
    case RemovePool(p) =>
      p == pools[0] && MonitorsOf(monitors, p) == {} && MembersOf(members, p) == {} &&
      PoolRemovals(members, monitors, pools[1..]) == PoolRemovals(members, monitors, pools)[1..]
    case _ => false
  }

  lemma PoolRemovalsHead(members: Members, monitors: Monitors, pools: seq<Id>)
    requires pools != []
    ensures var part := PoolSubtreeRemovals(members, monitors, pools[0]);
            part != [] && PoolRemovals(members, monitors, pools) != [] &&
            PoolRemovals(members, monitors, pools)[0] == part[0] &&
            PoolRemovals(members, monitors, pools)[1..] == part[1..] + PoolRemovals(members, monitors, pools[1..])
  {
    SubtreeNotEmpty(members, monitors, pools[0]);
    HeadTail(PoolSubtreeRemovals(members, monitors, pools[0]), PoolRemovals(members, monitors, pools[1..]));
  }

  lemma PoolStepMonitor(members: Members, monitors: Monitors, pools: seq<Id>, m: Id)
    requires pools != [] && NoRepeats(pools) && MonitorsOf(monitors, pools[0]) != {}
    requires m == SortedIds(MonitorsOf(monitors, pools[0]))[0]
    ensures PoolRemovals(members, monitors, pools) != []
    ensures PoolStepOk(members, monitors, pools, PoolRemovals(members, monitors, pools)[0])
  {
    hide NoRepeats, SortedIds, PoolSubtreeRemovals;
    TailNoRepeats(pools);
    PoolRemovalsHead(members, monitors, pools);
    RemoveMonitorHere(members, monitors, pools[0]);
    PoolRemovalsMonitorFrame(members, monitors, m, pools[1..]);
  }

  lemma PoolStepMember(members: Members, monitors: Monitors, pools: seq<Id>, m: Id)
    requires pools != [] && NoRepeats(pools) && MonitorsOf(monitors, pools[0]) == {} && MembersOf(members, pools[0]) != {}
    requires m == SortedMembers(members, pools[0])[0]
    ensures PoolRemovals(members, monitors, pools) != []
    ensures PoolStepOk(members, monitors, pools, PoolRemovals(members, monitors, pools)[0])
  {
    hide NoRepeats, SortedMembers, PoolSubtreeRemovals;
    TailNoRepeats(pools);
    PoolRemovalsHead(members, monitors, pools);
    RemoveMemberHere(members, monitors, pools[0]);
    PoolRemovalsMemberFrame(members, monitors, m, pools[1..]);
  }

  lemma PoolStep(members: Members, monitors: Monitors, pools: seq<Id>)
    requires pools != [] && NoRepeats(pools)
    ensures PoolRemovals(members, monitors, pools) != []
    ensures PoolStepOk(members, monitors, pools, PoolRemovals(members, monitors, pools)[0])
  {
    hide NoRepeats, SortedIds, SortedMembers, PoolSubtreeRemovals, PoolRemovals;
    PoolRemovalsHead(members, monitors, pools);
    if MonitorsOf(monitors, pools[0]) != {} {
      PoolStepMonitor(members, monitors, pools, SortedIds(MonitorsOf(monitors, pools[0]))[0]);
    } else if MembersOf(members, pools[0]) != {} {
      PoolStepMember(members, monitors, pools, SortedMembers(members, pools[0])[0]);
    } else {
      EmptyPool(members, monitors, pools[0]);
    }
  }

  lemma SubtreeNotEmpty(members: Members, monitors: Monitors, p: Id)
    ensures PoolSubtreeRemovals(members, monitors, p) != []
  {
  }

  lemma EmptyPool(members: Members, monitors: Monitors, p: Id)
    requires MonitorsOf(monitors, p) == {} && MembersOf(members, p) == {}
    ensures PoolSubtreeRemovals(members, monitors, p) == [RemovePool(p)]
  {
  }

  // ----- the whole plan -----

  /** The step removes something nothing else depends on. */
  ghost predicate RemovesGatewayLeaf(st: Store, lb: Id, m: Removal)
    requires lb in st.loadBalancers
  {
    match m
    case RemoveRule(r, p) =>
      r in RulesOf(st.rules, p) && p in st.policies && st.policies[p].parent in ListenersOf(st.listeners, lb)
    case RemovePolicy(p) =>
      p in st.policies && st.policies[p].parent in ListenersOf(st.listeners, lb) && RulesOf(st.rules, p) == {}
    case RemoveMonitor(x, p) => x in MonitorsOf(st.monitors, p) && p in PoolsOf(st.pools, lb)
    case RemoveMember(x, p) => x in MembersOf(st.members, p) && p in PoolsOf(st.pools, lb)
    case RemovePool(p) =>
      p in PoolsOf(st.pools, lb) && MonitorsOf(st.monitors, p) == {} && MembersOf(st.members, p) == {} &&
      (forall l :: l in ListenersOf(st.listeners, lb) ==> PoliciesOf(st.policies, l) == {})
    case RemoveListener(l) => l in ListenersOf(st.listeners, lb) && PoliciesOf(st.policies, l) == {}
    case RemoveFloatingIP(f) => f in FloatingIPsOf(st.floatingIPs, st.loadBalancers[lb].vipPort)
    case RemoveLoadBalancer(x) =>
      x == lb && ListenersOf(st.listeners, lb) == {} && PoolsOf(st.pools, lb) == {} &&
      FloatingIPsOf(st.floatingIPs, st.loadBalancers[lb].vipPort) == {}
  }

  /** One call: a leaf goes, and the plan built afterwards is the old plan without
      its head. */
  ghost predicate Advances(env: Env, st: Store, lb: Id)
    requires lb in st.loadBalancers
  {
    var m := FullPlan(st, lb)[0];
    RemovesGatewayLeaf(st, lb, m) &&
    if m.RemoveLoadBalancer? then FullPlan(st, lb) == [m] && m.id == lb
    else
      lb in Remove(st, m).loadBalancers && Deletable(env, Remove(st, m), lb) &&
      FullPlan(Remove(st, m), lb) == FullPlan(st, lb)[1..]
  }

  lemma StepsHeadTail(plans: DeletionPlans, rest: seq<Removal>)
    ensures plans.routes != [] ==>
              (plans.OrderedSteps() + rest)[0] == plans.routes[0] &&
              plans.(routes := plans.routes[1..]).OrderedSteps() + rest == (plans.OrderedSteps() + rest)[1..]
    ensures plans.routes == [] && plans.pools != [] ==>
              (plans.OrderedSteps() + rest)[0] == plans.pools[0] &&
              plans.(pools := plans.pools[1..]).OrderedSteps() + rest == (plans.OrderedSteps() + rest)[1..]
    ensures plans.routes == [] && plans.pools == [] && plans.listeners != [] ==>
              (plans.OrderedSteps() + rest)[0] == plans.listeners[0] &&
              plans.(listeners := plans.listeners[1..]).OrderedSteps() + rest == (plans.OrderedSteps() + rest)[1..]
    ensures plans.routes == [] && plans.pools == [] && plans.listeners == [] ==> plans.OrderedSteps() + rest == rest
  {
  }

  ghost function LastSteps(st: Store, lb: Id): seq<Removal>
    requires lb in st.loadBalancers
  {
    RemoveFloatingIPs(SortedIds(FloatingIPsOf(st.floatingIPs, st.loadBalancers[lb].vipPort))) + [RemoveLoadBalancer(lb)]
  }

  lemma ListingNoRepeats(ids: set<Id>)
    ensures NoRepeats(SortedIds(ids))
  {
  }

  lemma RouteStepKeepsTree(env: Env, st: Store, lb: Id, m: Removal)
    requires GatewayTreeOk(env, st, lb) && (m.RemoveRule? || m.RemovePolicy?)
    ensures GatewayTreeOk(env, Remove(st, m), lb)
  {
    hide ListenerOwned, PolicyOwned, RuleOwned, PoolOwned, PoolSubtreeOwned;
  }

  /** A step that only changed resources beneath the load balancer. */
  lemma StepAdvances(env: Env, st: Store, lb: Id, m: Removal)
    requires lb in st.loadBalancers && Deletable(env, st, lb) && RemovesGatewayLeaf(st, lb, m)
    requires !m.RemoveLoadBalancer? && !m.RemoveFloatingIP?
    requires var plan := PlansFor(st, lb).OrderedSteps() + LastSteps(st, lb);
             plan[0] == m && PlansFor(Remove(st, m), lb).OrderedSteps() + LastSteps(st, lb) == plan[1..]
    requires GatewayTreeOk(env, Remove(st, m), lb)
    ensures Advances(env, st, lb)
  {
    hide GatewayTreeOk, PlansFor, SortedIds, RemovesGatewayLeaf;
  }

  lemma RouteAdvances(env: Env, st: Store, lb: Id)
    requires lb in st.loadBalancers && Deletable(env, st, lb) && PlansFor(st, lb).routes != []
    ensures Advances(env, st, lb)
  {
    hide GatewayTreeOk, FloatingIPsOwned, RouteRemovals, PoolRemovals, SortedIds, NoRepeats, RemoveListeners;
    var plans := PlansFor(st, lb);
    var listeners := SortedIds(ListenersOf(st.listeners, lb));
    ListingNoRepeats(ListenersOf(st.listeners, lb));
    RouteStep(st.policies, st.rules, listeners);
    var m := plans.routes[0];
    StepsHeadTail(plans, LastSteps(st, lb));
    RouteStepKeepsTree(env, st, lb, m);
    assert PlansFor(Remove(st, m), lb) == plans.(routes := plans.routes[1..]);
    StepAdvances(env, st, lb, m);
  }

  lemma PoolStepKeepsTree(env: Env, st: Store, lb: Id, m: Removal)
    requires GatewayTreeOk(env, st, lb) && (m.RemoveMonitor? || m.RemoveMember? || m.RemovePool?)
    ensures GatewayTreeOk(env, Remove(st, m), lb)
  {
    hide ListenerSubtreeOwned, PoolOwned, MonitorOwned, MemberOwned;
    forall l | l in ListenersOf(st.listeners, lb) ensures ListenerSubtreeOwned(env, Remove(st, m), lb, l) {
      SameListenerSubtree(env, st, Remove(st, m), lb, l);
    }
  }

  lemma SameListenerSubtree(env: Env, st: Store, st': Store, lb: Id, l: Id)
    requires l in st.listeners && l in st'.listeners && st.listeners[l] == st'.listeners[l]
    requires st.policies == st'.policies && st.rules == st'.rules
    ensures ListenerSubtreeOwned(env, st', lb, l) <==> ListenerSubtreeOwned(env, st, lb, l)
  {
  }

  lemma PoolsAfter(st: Store, lb: Id, m: Removal)
    requires PoolsOf(st.pools, lb) != {}
    requires var pools := SortedIds(PoolsOf(st.pools, lb));
             PoolRemovals(st.members, st.monitors, pools) != [] && PoolStepOk(st.members, st.monitors, pools, m)
    ensures PlansFor(Remove(st, m), lb) == PlansFor(st, lb).(pools := PlansFor(st, lb).pools[1..])
  {
    hide RouteRemovals, PoolRemovals, RemoveListeners;
    if m.RemovePool? {
      assert PoolsOf(st.pools - {m.id}, lb) == PoolsOf(st.pools, lb) - {m.id};
      SortedIdsTail(PoolsOf(st.pools, lb));
    }
  }

  lemma PoolLeaf(st: Store, lb: Id, m: Removal)
    requires lb in st.loadBalancers && PoolsOf(st.pools, lb) != {} && PlansFor(st, lb).routes == []
    requires var pools := SortedIds(PoolsOf(st.pools, lb));
             PoolRemovals(st.members, st.monitors, pools) != [] && PoolStepOk(st.members, st.monitors, pools, m)
    ensures RemovesGatewayLeaf(st, lb, m) && (m.RemoveMonitor? || m.RemoveMember? || m.RemovePool?)
  {
    hide PoolRemovals, RemoveListeners;
    NoSteps(st, lb);
  }

  lemma PoolAdvances(env: Env, st: Store, lb: Id)
    requires lb in st.loadBalancers && Deletable(env, st, lb)
    requires PlansFor(st, lb).routes == [] && PlansFor(st, lb).pools != []
    ensures Advances(env, st, lb)
  {
    hide GatewayTreeOk, FloatingIPsOwned, RouteRemovals, PoolRemovals, SortedIds, NoRepeats, RemoveListeners, PoolStepOk,
         RemovesGatewayLeaf;
    var plans := PlansFor(st, lb);
    NoSteps(st, lb);
    ListingNoRepeats(PoolsOf(st.pools, lb));
    PoolStep(st.members, st.monitors, SortedIds(PoolsOf(st.pools, lb)));
    var m := plans.pools[0];
    PoolsAfter(st, lb, m);
    PoolLeaf(st, lb, m);
    StepsHeadTail(plans, LastSteps(st, lb));
    PoolStepKeepsTree(env, st, lb, m);
    hide *;
    StepAdvances(env, st, lb, m);
  }

  lemma NoSteps(st: Store, lb: Id)
    ensures PlansFor(st, lb).pools == [] <==> PoolsOf(st.pools, lb) == {}
    ensures PlansFor(st, lb).listeners == [] <==> ListenersOf(st.listeners, lb) == {}
    ensures PlansFor(st, lb).routes == [] <==>
            forall l :: l in ListenersOf(st.listeners, lb) ==> PoliciesOf(st.policies, l) == {}
  {
    hide RouteRemovals;
    NoRouteRemovals(st.policies, st.rules, SortedIds(ListenersOf(st.listeners, lb)));
    if PoolsOf(st.pools, lb) != {} {
      SubtreeNotEmpty(st.members, st.monitors, SortedIds(PoolsOf(st.pools, lb))[0]);
    }
  }

  lemma ListenersTail(listeners: map<Id, Listener>, lb: Id)
    requires ListenersOf(listeners, lb) != {}
    ensures var l := SortedIds(ListenersOf(listeners, lb))[0];
            l in ListenersOf(listeners, lb) && RemoveListeners(SortedIds(ListenersOf(listeners, lb)))[0] == RemoveListener(l) &&
            ListenersOf(listeners - {l}, lb) == ListenersOf(listeners, lb) - {l} &&
            RemoveListeners(SortedIds(ListenersOf(listeners - {l}, lb))) ==
              RemoveListeners(SortedIds(ListenersOf(listeners, lb)))[1..]
  {
    var ids := SortedIds(ListenersOf(listeners, lb));
    assert ListenersOf(listeners - {ids[0]}, lb) == ListenersOf(listeners, lb) - {ids[0]};
    SortedIdsTail(ListenersOf(listeners, lb));
  }

  lemma ListenerAdvances(env: Env, st: Store, lb: Id)
    requires lb in st.loadBalancers && Deletable(env, st, lb)
    requires PlansFor(st, lb).routes == [] && PlansFor(st, lb).pools == [] && PlansFor(st, lb).listeners != []
    ensures Advances(env, st, lb)
  {
    hide FloatingIPsOwned, RouteRemovals, PoolRemovals, SortedIds, RemoveListeners, PoolsOwned, ListenerSubtreeOwned;
    var plans := PlansFor(st, lb);
    NoSteps(st, lb);
    ListenersTail(st.listeners, lb);
    var m := plans.listeners[0];
    var st' := Remove(st, m);
    StepsHeadTail(plans, LastSteps(st, lb));
    forall l | l in ListenersOf(st'.listeners, lb) ensures ListenerSubtreeOwned(env, st', lb, l) {
      SameListenerSubtree(env, st, st', lb, l);
    }
    assert PoolsOwned(env, st', lb) by { SamePools(env, st, st', lb); }
    NoSteps(st', lb);
    assert PlansFor(st', lb) == plans.(listeners := plans.listeners[1..]);
  }

  lemma SamePools(env: Env, st: Store, st': Store, lb: Id)
    requires st'.pools == st.pools && st'.members == st.members && st'.monitors == st.monitors
    ensures PoolsOwned(env, st', lb) <==> PoolsOwned(env, st, lb)
  {
  }

  lemma FloatingIPsTail(floatingIPs: map<Id, FloatingIP>, port: Id)
    requires FloatingIPsOf(floatingIPs, port) != {}
    ensures var f := SortedIds(FloatingIPsOf(floatingIPs, port))[0];
            f in FloatingIPsOf(floatingIPs, port) &&
            RemoveFloatingIPs(SortedIds(FloatingIPsOf(floatingIPs, port)))[0] == RemoveFloatingIP(f) &&
            RemoveFloatingIPs(SortedIds(FloatingIPsOf(floatingIPs - {f}, port))) ==
              RemoveFloatingIPs(SortedIds(FloatingIPsOf(floatingIPs, port)))[1..]
  {
    var ids := SortedIds(FloatingIPsOf(floatingIPs, port));
    assert FloatingIPsOf(floatingIPs - {ids[0]}, port) == FloatingIPsOf(floatingIPs, port) - {ids[0]};
    SortedIdsTail(FloatingIPsOf(floatingIPs, port));
  }

  lemma FloatingIPAdvances(env: Env, st: Store, lb: Id)
    requires lb in st.loadBalancers && Deletable(env, st, lb) && PlansFor(st, lb).OrderedSteps() == []
    ensures Advances(env, st, lb)
  {
    hide GatewayTreeOk, FloatingIPOwned, RouteRemovals, PoolRemovals, SortedIds, RemoveListeners, RemoveFloatingIPs;
    var plans := PlansFor(st, lb);
    var port := st.loadBalancers[lb].vipPort;
    assert plans.routes == [] && plans.pools == [] && plans.listeners == [];
    NoSteps(st, lb);
    StepsHeadTail(plans, LastSteps(st, lb));
    if FloatingIPsOf(st.floatingIPs, port) != {} {
      FloatingIPsTail(st.floatingIPs, port);
      var f := SortedIds(FloatingIPsOf(st.floatingIPs, port))[0];
      var st' := st.(floatingIPs := st.floatingIPs - {f});
      SameTree(env, st, st', lb);
      StepsHeadTail(PlansFor(st', lb), LastSteps(st', lb));
      HeadTail(RemoveFloatingIPs(SortedIds(FloatingIPsOf(st.floatingIPs, port))), [RemoveLoadBalancer(lb)]);
    } else {
      NoFloatingIPs(st, port);
    }
  }

  lemma NoFloatingIPs(st: Store, port: Id)
    requires FloatingIPsOf(st.floatingIPs, port) == {}
    ensures RemoveFloatingIPs(SortedIds(FloatingIPsOf(st.floatingIPs, port))) == []
  {
  }

  lemma SameTree(env: Env, st: Store, st': Store, lb: Id)
    requires st' == st.(floatingIPs := st'.floatingIPs) && GatewayTreeOk(env, st, lb)
    ensures GatewayTreeOk(env, st', lb) && PlansFor(st', lb) == PlansFor(st, lb)
  {
    hide ListenerSubtreeOwned;
    SamePools(env, st, st', lb);
    forall l | l in ListenersOf(st'.listeners, lb) ensures ListenerSubtreeOwned(env, st', lb, l) {
      SameListenerSubtree(env, st, st', lb, l);
    }
  }

  /** Deleting a Gateway by re-planning: the head of the plan is a leaf and
      removing it leaves exactly the tail, still fully validated. */
  lemma GatewayDeletionTail(env: Env, st: Store, lb: Id)
    requires lb in st.loadBalancers && Deletable(env, st, lb)
    ensures Advances(env, st, lb)
  {
    hide Deletable, Advances, PlansFor;
    var plans := PlansFor(st, lb);
    if plans.routes != [] {
      RouteAdvances(env, st, lb);
    } else if plans.pools != [] {
      PoolAdvances(env, st, lb);
    } else if plans.listeners != [] {
      ListenerAdvances(env, st, lb);
    } else {
      FloatingIPAdvances(env, st, lb);
    }
  }

  /** A pool that goes is the target of no policy anywhere. */
  lemma RemovedPoolUnreferenced(st: Store, lb: Id, p: Id, q: Id)
    requires lb in st.loadBalancers && RemovesGatewayLeaf(st, lb, RemovePool(p)) && RedirectsLocal(st) && q in st.policies
    ensures st.policies[q].redirectPool != p
  {
    assert q in PoliciesOf(st.policies, st.policies[q].parent);
  }
}
