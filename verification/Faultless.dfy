/** When a call is refused: the checks of an observed tree fail exactly when some
    resource of it has a fault. */
module Faultless {
  import opened Ownership
  import opened Octavia
  import opened RouteModel
  import opened RouteTree
  import opened RouteDeletion
  import opened GatewayTree
  import opened GatewayDeletion
  import opened Provider
  import opened Isolation

  // ----- the whole Gateway -----

  /** What a failed check of a listener and its policies points at. */
  lemma ListenerCulprit(env: Env, st: Store, lb: Id, l: Id) returns (fault: Fault)
    requires lb in st.loadBalancers && l in ListenersOf(st.listeners, lb) && !ListenerSubtreeOwned(env, st, lb, l)
    ensures Present(env, DeleteGatewayOp, st, lb, fault) && !fault.BadFloatingIP?
  {
    if !ListenerOwned(env, lb, st.listeners[l]) {
      fault := BadListener(l);
    } else {
      var p :| p in PoliciesOf(st.policies, l) && !(PolicyOwned(env, l, st.policies[p]) && RulesOwned(env, st.rules, p));
      if !PolicyOwned(env, l, st.policies[p]) {
        fault := BadPolicy(l, p);
      } else {
        var r :| r in RulesOf(st.rules, p) && !RuleOwned(env, st.rules[r]);
        fault := BadRule(l, p, r);
      }
    }
  }

  lemma PoolCulprit(env: Env, st: Store, lb: Id, p: Id) returns (fault: Fault)
    requires lb in st.loadBalancers && p in PoolsOf(st.pools, lb)
    requires !(PoolOwned(env, lb, st.pools[p]) && PoolSubtreeOwned(env, st.members, st.monitors, p))
    ensures Present(env, DeleteGatewayOp, st, lb, fault) && !fault.BadFloatingIP?
  {
    if !PoolOwned(env, lb, st.pools[p]) {
      fault := BadPool(p);
    } else if x :| x in MonitorsOf(st.monitors, p) && !MonitorOwned(env, p, st.monitors[x]) {
      fault := BadMonitor(p, x);
    } else {
      var x :| x in MembersOf(st.members, p) && !MemberOwned(env, p, st.members[x]);
      fault := BadMember(p, x);
    }
  }

  lemma GatewayCulprit(env: Env, st: Store, lb: Id) returns (fault: Fault)
    requires lb in st.loadBalancers && !Deletable(env, st, lb)
    ensures Present(env, DeleteGatewayOp, st, lb, fault)
  {
    if l :| l in ListenersOf(st.listeners, lb) && !ListenerSubtreeOwned(env, st, lb, l) {
      fault := ListenerCulprit(env, st, lb, l);
    } else if p :| p in PoolsOf(st.pools, lb) &&
                   !(PoolOwned(env, lb, st.pools[p]) && PoolSubtreeOwned(env, st.members, st.monitors, p)) {
      fault := PoolCulprit(env, st, lb, p);
    } else {
      assert !FloatingIPsOwned(env, st.floatingIPs, st.loadBalancers[lb].vipPort);
      var f :| f in FloatingIPsOf(st.floatingIPs, st.loadBalancers[lb].vipPort) && !FloatingIPOwned(env, st.floatingIPs[f]);
      fault := BadFloatingIP(f);
    }
  }

  /** DeleteGateway on an active load balancer is refused exactly when a resource
      beneath it, or a Floating IP at its port, has a fault. */
  lemma DeleteGatewayRefusedIff(env: Env, st: Store, lb: Id)
    requires FindLoadBalancer(env, st.loadBalancers) == Found(lb) && lb in st.loadBalancers && st.loadBalancers[lb].status == Active
    requires "" !in st.listeners
    ensures DeleteGatewayResult(env, st).outcome == Failed <==> exists fault :: Present(env, DeleteGatewayOp, st, lb, fault)
  {
    hide FindLoadBalancer, Present, Deletable, FullPlan, Remove;
    if fault :| Present(env, DeleteGatewayOp, st, lb, fault) {
      FaultRefusesDeletion(env, st, lb, fault);
    } else if !Deletable(env, st, lb) {
      var fault := GatewayCulprit(env, st, lb);
    }
  }

  lemma FaultRefusesDeletion(env: Env, st: Store, lb: Id, fault: Fault)
    requires lb in st.loadBalancers && Present(env, DeleteGatewayOp, st, lb, fault)
    ensures !Deletable(env, st, lb)
  {
    hide Present, GatewayTreeOk;
    if fault.BadFloatingIP? {
      FloatingIPFault(env, DeleteGatewayOp, st, lb, fault, "");
    } else {
      DeletionIgnoresTwins(env, st, lb, fault);
      GatewayTreeFault(env, DeleteGatewayOp, st, lb, fault);
    }
  }

  lemma SameTreeFaults(env: Env, op: Operation, st: Store, lb: Id, fault: Fault)
    requires lb in st.loadBalancers && op.EnsureGatewayOp? && Present(env, DeleteGatewayOp, st, lb, fault) && !fault.BadFloatingIP?
    ensures Present(env, op, st, lb, fault)
  {
  }

  lemma TreeCulprit(env: Env, op: Operation, st: Store, lb: Id) returns (fault: Fault)
    requires lb in st.loadBalancers && op.EnsureGatewayOp? && !GatewayTreeOk(env, st, lb)
    ensures Present(env, op, st, lb, fault)
  {
    hide Present;
    if l :| l in ListenersOf(st.listeners, lb) && !ListenerSubtreeOwned(env, st, lb, l) {
      fault := ListenerCulprit(env, st, lb, l);
    } else {
      var p :| p in PoolsOf(st.pools, lb) && !(PoolOwned(env, lb, st.pools[p]) && PoolSubtreeOwned(env, st.members, st.monitors, p));
      fault := PoolCulprit(env, st, lb, p);
    }
    SameTreeFaults(env, op, st, lb, fault);
  }

  /** More than one Floating IP where one is asked for, or one on another network. */
  ghost predicate AddressUnusable(spec: GatewaySpec, st: Store, port: Id)
  {
    spec.externalNetwork != "" &&
    ((exists f :: f in FloatingIPsOf(st.floatingIPs, port) && st.floatingIPs[f].network != spec.externalNetwork) ||
     (exists f, g :: f in FloatingIPsOf(st.floatingIPs, port) && g in FloatingIPsOf(st.floatingIPs, port) && f != g))
  }

  lemma AddressState(env: Env, spec: GatewaySpec, st: Store, port: Id)
    ensures FloatingIPStateOf(env, st.floatingIPs, port, spec.externalNetwork) == Unusable <==>
            AddressUnusable(spec, st, port) ||
            exists f :: f in FloatingIPsOf(st.floatingIPs, port) && FaultyFloatingIP(env, EnsureGatewayOp(spec, Choice("", "", "")), port, st.floatingIPs[f])
  {
    var items := FloatingIPsOf(st.floatingIPs, port);
    assert forall f :: f in items ==>
      (FloatingIPTrusted(env, port, st.floatingIPs[f]) <==>
       !FaultyFloatingIP(env, EnsureGatewayOp(spec, Choice("", "", "")), port, st.floatingIPs[f]));
    hide FloatingIPTrusted, FaultyFloatingIP;
    if items != {} {
      var f :| f in items;
      if forall g :: g in items ==> g == f {
        assert items == {f};
      }
    }
  }

  ghost predicate ListenerUnusable(spec: GatewaySpec, st: Store, lb: Id)
  {
    exists l :: l in ListenersOf(st.listeners, lb) && (st.listeners[l].protocol != HTTP || st.listeners[l].port != spec.listenerPort)
  }

  /** EnsureGateway on an active load balancer is refused exactly for an invalid or
      incompatible specification, a fault of the tree or a Floating IP, a listener of
      another protocol or port, or Floating IPs other than the one asked for. */
  lemma EnsureGatewayRefusedIff(env: Env, spec: GatewaySpec, st: Store, choice: Choice, lb: Id)
    requires LawfulGatewayOwner(env.own) && FindLoadBalancer(env, st.loadBalancers) == Found(lb) && lb in st.loadBalancers
    requires st.loadBalancers[lb].status == Active && "" !in st.listeners
    ensures EnsureGatewayResult(env, spec, st, choice).outcome == Failed <==>
            RefusesOutright(env, EnsureGatewayOp(spec, choice), st.loadBalancers[lb]) ||
            (exists fault :: Present(env, EnsureGatewayOp(spec, choice), st, lb, fault)) ||
            ListenerUnusable(spec, st, lb) || AddressUnusable(spec, st, st.loadBalancers[lb].vipPort)
  {
    hide FindLoadBalancer, FindListener, FloatingIPStateOf, GatewayTreeOk, Blank, Present, FaultyFloatingIP, AddressUnusable, LawfulGatewayOwner,
         NewFloatingIP, NewListener, HasRouteResources, ListenerUnusable;
    var op := EnsureGatewayOp(spec, choice);
    AddressState(env, spec, st, st.loadBalancers[lb].vipPort);
    if fault :| Present(env, op, st, lb, fault) {
      PresentRefuses(env, spec, st, choice, lb, fault);
    } else {
      if !GatewayTreeOk(env, st, lb) {
        var fault := TreeCulprit(env, op, st, lb);
        assert false;
      }
      AddressFaultPresent(env, spec, st, choice, lb);
      ListenerFound(env, spec, st, choice, lb);
    }
  }

  lemma PresentRefuses(env: Env, spec: GatewaySpec, st: Store, choice: Choice, lb: Id, fault: Fault)
    requires FindLoadBalancer(env, st.loadBalancers) == Found(lb) && lb in st.loadBalancers && "" !in st.listeners
    requires st.loadBalancers[lb].status == Active && Present(env, EnsureGatewayOp(spec, choice), st, lb, fault)
    ensures EnsureGatewayResult(env, spec, st, choice).outcome == Failed
  {
    hide FindLoadBalancer, FindListener, FloatingIPStateOf, GatewayTreeOk, Blank, Present, EnsureGatewayAdmin, NewFloatingIP;
    var op := EnsureGatewayOp(spec, choice);
    if fault.BadFloatingIP? {
      FloatingIPFault(env, op, st, lb, fault, spec.externalNetwork);
    } else if fault.TwoListeners? {
      RouteListenerFault(env, op, st, lb, fault);
    } else {
      GatewayTreeFault(env, op, st, lb, fault);
    }
  }

  lemma AddressFaultPresent(env: Env, spec: GatewaySpec, st: Store, choice: Choice, lb: Id)
    requires lb in st.loadBalancers && forall fault :: !Present(env, EnsureGatewayOp(spec, choice), st, lb, fault)
    ensures var port := st.loadBalancers[lb].vipPort;
            forall f :: f in FloatingIPsOf(st.floatingIPs, port) ==>
              !FaultyFloatingIP(env, EnsureGatewayOp(spec, Choice("", "", "")), port, st.floatingIPs[f])
  {
    var port := st.loadBalancers[lb].vipPort;
    forall f | f in FloatingIPsOf(st.floatingIPs, port)
      ensures !FaultyFloatingIP(env, EnsureGatewayOp(spec, Choice("", "", "")), port, st.floatingIPs[f])
    {
      assert !Present(env, EnsureGatewayOp(spec, choice), st, lb, BadFloatingIP(f));
    }
  }

  /** Without faults the listener lookup finds the only listener, if there is one. */
  lemma ListenerFound(env: Env, spec: GatewaySpec, st: Store, choice: Choice, lb: Id)
    requires LawfulGatewayOwner(env.own) && lb in st.loadBalancers
    requires forall fault :: !Present(env, EnsureGatewayOp(spec, choice), st, lb, fault)
    ensures var found := FindListener(env, st.listeners, lb);
            !found.Conflict? &&
            (ListenerUnusable(spec, st, lb) <==>
              found.Found? && (st.listeners[found.id].protocol != HTTP || st.listeners[found.id].port != spec.listenerPort))
  {
    var items := ListenersOf(st.listeners, lb);
    if items != {} {
      var l :| l in items;
      forall other | other in items ensures other == l {
        assert !Present(env, EnsureGatewayOp(spec, choice), st, lb, TwoListeners(l, other));
      }
      assert items == {l};
      assert !Present(env, EnsureGatewayOp(spec, choice), st, lb, BadListener(l));
      assert ListenerManaged(env, lb, st.listeners[l]);
    }
  }

  // ----- a route -----

  /** What a route refuses beyond the faults every operation knows: two members,
      policies or rules that play one part, and tags that name a role without
      matching it. */
  datatype TreeFault =
    | Plain(fault: Fault)
    | TwinMembers(pool: Id, first: Id, second: Id)
    | TwinPolicies(first: Id, second: Id)
    | TwinRules(policy: Id, first: Id, second: Id)
    | HalfPolicy(policy: Id)
    | HalfRule(policy: Id, rule: Id)

  /** Exactly the first role, or not even by name and exactly the second. */
  predicate SamePart(own: Owner, a: Tags, b: Tags, first: Role, second: Role)
  {
    (own.exactRoute(a, first) && own.exactRoute(b, first)) ||
    (!own.exactRoute(a, first) && !own.exactRoute(b, first) && own.exactRoute(a, second) && own.exactRoute(b, second))
  }

  predicate Half(own: Owner, tags: Tags, first: Role)
  {
    own.discoversRoute(tags, first) && !own.exactRoute(tags, first)
  }

  ghost predicate RouteFaultPresent(env: Env, st: Store, lb: Id, l: Id, fault: TreeFault)
    requires lb in st.loadBalancers
  {
    match fault
    case Plain(f) =>
      (f.BadPool? || f.BadMember? || f.BadMonitor? || f.TwoPools? || f.TwoMonitors? ||
       ((f.BadPolicy? || f.BadRule?) && f.listener == l)) && Present(env, DeleteRouteOp, st, lb, f)
    case TwinMembers(p, m, n) =>
      p in PoolsOf(st.pools, lb) && m != n && m in MembersOf(st.members, p) && n in MembersOf(st.members, p) &&
      env.net.parse(st.members[m].address).Some? && env.net.parse(st.members[n].address).Some? &&
      env.net.join(env.net.parse(st.members[m].address).value, st.members[m].port) ==
        env.net.join(env.net.parse(st.members[n].address).value, st.members[n].port)
    case TwinPolicies(p, q) =>
      p != q && p in PoliciesOf(st.policies, l) && q in PoliciesOf(st.policies, l) &&
      SamePart(env.own, st.policies[p].tags, st.policies[q].tags, PolicyExact, PolicyPrefix)
    case TwinRules(p, r, s) =>
      p in PoliciesOf(st.policies, l) && r != s && r in RulesOf(st.rules, p) && s in RulesOf(st.rules, p) &&
      SamePart(env.own, st.rules[r].tags, st.rules[s].tags, RulePath, RuleHost)
    case HalfPolicy(p) => p in PoliciesOf(st.policies, l) && Half(env.own, st.policies[p].tags, PolicyExact)
    case HalfRule(p, r) => p in PoliciesOf(st.policies, l) && r in RulesOf(st.rules, p) && Half(env.own, st.rules[r].tags, RulePath)
  }

  lemma RulesCulprit(env: Env, st: Store, lb: Id, l: Id, p: Id) returns (fault: TreeFault)
    requires lb in st.loadBalancers && l in ListenersOf(st.listeners, lb) && p in PoliciesOf(st.policies, l)
    requires !RulesOk(env, st.rules, p)
    ensures RouteFaultPresent(env, st, lb, l, fault)
  {
    if r :| r in RulesOf(st.rules, p) && !RuleOk(env, st.rules[r]) {
      if Half(env.own, st.rules[r].tags, RulePath) {
        fault := HalfRule(p, r);
      } else {
        fault := Plain(BadRule(l, p, r));
      }
    } else {
      var r, s :| r in RulesOf(st.rules, p) && s in RulesOf(st.rules, p) && r != s &&
        RoleRule(env.own, st.rules[r].tags) == RoleRule(env.own, st.rules[s].tags);
      assert RuleOk(env, st.rules[r]) && RuleOk(env, st.rules[s]);
      fault := TwinRules(p, r, s);
    }
  }

  lemma PoliciesCulprit(env: Env, st: Store, lb: Id, l: Id) returns (fault: TreeFault)
    requires lb in st.loadBalancers && l in ListenersOf(st.listeners, lb)
    requires !PolicyTreeOk(env, st.policies, st.rules, l)
    ensures RouteFaultPresent(env, st, lb, l, fault)
  {
    hide RulesOk;
    if p :| p in PoliciesOf(st.policies, l) && !PolicyOk(env, l, st.policies[p]) {
      if Half(env.own, st.policies[p].tags, PolicyExact) {
        fault := HalfPolicy(p);
      } else {
        fault := Plain(BadPolicy(l, p));
      }
    } else if p :| p in PoliciesOf(st.policies, l) && !RulesOk(env, st.rules, p) {
      fault := RulesCulprit(env, st, lb, l, p);
    } else {
      var p, q :| p in PoliciesOf(st.policies, l) && q in PoliciesOf(st.policies, l) && p != q &&
        RolePolicy(env.own, st.policies[p].tags) == RolePolicy(env.own, st.policies[q].tags);
      assert PolicyOk(env, l, st.policies[p]) && PolicyOk(env, l, st.policies[q]);
      fault := TwinPolicies(p, q);
    }
  }

  lemma PoolTreeCulprit(env: Env, st: Store, lb: Id, l: Id) returns (fault: TreeFault)
    requires LawfulOwner(env.own) && lb in st.loadBalancers && !PoolTreeOk(env, st.pools, st.members, st.monitors, lb)
    ensures RouteFaultPresent(env, st, lb, l, fault)
  {
    hide MembersOk, MonitorsOk;
    if p :| p in PoolsOf(st.pools, lb) && !PoolOk(env, lb, st.pools[p]) {
      fault := Plain(BadPool(p));
    } else if p, q :| p in PoolsOf(st.pools, lb) && q in PoolsOf(st.pools, lb) && p != q {
      fault := Plain(TwoPools(p, q));
    } else if p :| p in PoolsOf(st.pools, lb) && !MonitorsOk(env, st.monitors, p) {
      fault := MonitorsCulprit(env, st, lb, l, p);
    } else {
      var p :| p in PoolsOf(st.pools, lb) && !MembersOk(env, st.members, p);
      fault := MembersCulprit(env, st, lb, l, p);
    }
  }

  lemma MonitorsCulprit(env: Env, st: Store, lb: Id, l: Id, p: Id) returns (fault: TreeFault)
    requires lb in st.loadBalancers && p in PoolsOf(st.pools, lb) && !MonitorsOk(env, st.monitors, p)
    ensures RouteFaultPresent(env, st, lb, l, fault)
  {
    if x :| x in MonitorsOf(st.monitors, p) && !MonitorOk(env, p, st.monitors[x]) {
      fault := Plain(BadMonitor(p, x));
    } else {
      var x, y :| x in MonitorsOf(st.monitors, p) && y in MonitorsOf(st.monitors, p) && x != y;
      fault := Plain(TwoMonitors(p, x, y));
    }
  }

  lemma MembersCulprit(env: Env, st: Store, lb: Id, l: Id, p: Id) returns (fault: TreeFault)
    requires lb in st.loadBalancers && p in PoolsOf(st.pools, lb) && !MembersOk(env, st.members, p)
    ensures RouteFaultPresent(env, st, lb, l, fault)
  {
    if x :| x in MembersOf(st.members, p) && !MemberOk(env, p, st.members[x]) {
      fault := Plain(BadMember(p, x));
    } else {
      var x, y :| x in MembersOf(st.members, p) && y in MembersOf(st.members, p) && x != y &&
        MemberText(env.net, st.members[x]) == MemberText(env.net, st.members[y]);
      assert MemberOk(env, p, st.members[x]) && MemberOk(env, p, st.members[y]);
      fault := TwinMembers(p, x, y);
    }
  }

  lemma RouteFaultRefuses(env: Env, st: Store, lb: Id, l: Id, fault: TreeFault)
    requires lb in st.loadBalancers && l in ListenersOf(st.listeners, lb) && "" !in st.listeners
    requires RouteFaultPresent(env, st, lb, l, fault)
    ensures !TreeOk(env, st, Site(lb, l))
  {
    match fault {
      case Plain(f) => PlainFaultRefuses(env, st, lb, l, f);
      case TwinMembers(p, m, n) => assert MemberText(env.net, st.members[m]) == MemberText(env.net, st.members[n]);
      case TwinPolicies(p, q) => TwinPoliciesRefused(env, st, lb, l, p, q);
      case TwinRules(p, r, s) => TwinRulesRefused(env, st, lb, l, p, r, s);
      case HalfPolicy(p) => assert !PolicyOk(env, l, st.policies[p]);
      case HalfRule(p, r) => assert !RuleOk(env, st.rules[r]) && !RulesOk(env, st.rules, p);
    }
  }

  lemma PlainFaultRefuses(env: Env, st: Store, lb: Id, l: Id, f: Fault)
    requires lb in st.loadBalancers && l in ListenersOf(st.listeners, lb) && "" !in st.listeners
    requires RouteFaultPresent(env, st, lb, l, Plain(f))
    ensures !TreeOk(env, st, Site(lb, l))
  {
    hide Present, PoolTreeOk, PolicyTreeOk;
    if f.BadPolicy? || f.BadRule? {
      RoutePolicyFault(env, DeleteRouteOp, st, lb, f, l);
    } else {
      RoutePoolFault(env, DeleteRouteOp, st, lb, f);
    }
  }

  lemma TwinPoliciesRefused(env: Env, st: Store, lb: Id, l: Id, p: Id, q: Id)
    requires lb in st.loadBalancers && l != "" && RouteFaultPresent(env, st, lb, l, TwinPolicies(p, q))
    ensures !PolicyTreeOk(env, st.policies, st.rules, l)
  {
    hide RulesOk;
    var a, b := RolePolicy(env.own, st.policies[p].tags), RolePolicy(env.own, st.policies[q].tags);
    assert a == b || a.None? || b.None?;
    assert a.None? ==> !PolicyOk(env, l, st.policies[p]);
    assert b.None? ==> !PolicyOk(env, l, st.policies[q]);
  }

  lemma TwinRulesRefused(env: Env, st: Store, lb: Id, l: Id, p: Id, r: Id, s: Id)
    requires lb in st.loadBalancers && l != "" && RouteFaultPresent(env, st, lb, l, TwinRules(p, r, s))
    ensures !PolicyTreeOk(env, st.policies, st.rules, l)
  {
    var a, b := RoleRule(env.own, st.rules[r].tags), RoleRule(env.own, st.rules[s].tags);
    assert a == b || a.None? || b.None?;
    assert a.None? ==> !RuleOk(env, st.rules[r]);
    assert b.None? ==> !RuleOk(env, st.rules[s]);
    assert !RulesOk(env, st.rules, p);
  }

  /** A route's tree is accepted exactly when no resource of it has a fault. */
  lemma RouteTreeRefusedIff(env: Env, st: Store, lb: Id, l: Id)
    requires LawfulOwner(env.own) && lb in st.loadBalancers && l in ListenersOf(st.listeners, lb) && "" !in st.listeners
    ensures TreeOk(env, st, Site(lb, l)) <==> forall fault :: !RouteFaultPresent(env, st, lb, l, fault)
  {
    hide LawfulOwner, RouteFaultPresent, PoolTreeOk, PolicyTreeOk;
    if fault :| RouteFaultPresent(env, st, lb, l, fault) {
      RouteFaultRefuses(env, st, lb, l, fault);
    } else if !PoolTreeOk(env, st.pools, st.members, st.monitors, lb) {
      var fault := PoolTreeCulprit(env, st, lb, l);
    } else if !PolicyTreeOk(env, st.policies, st.rules, l) {
      var fault := PoliciesCulprit(env, st, lb, l);
    }
  }

  /** DeleteRoute on an active Gateway with its listener is refused exactly for a
      fault of the route's tree or of the listener. */
  lemma DeleteRouteRefusedIff(env: Env, st: Store, lb: Id, l: Id)
    requires LawfulOwner(env.own) && FindLoadBalancer(env, st.loadBalancers) == Found(lb) && lb in st.loadBalancers
    requires st.loadBalancers[lb].status == Active && ListenersOf(st.listeners, lb) == {l} && "" !in st.listeners
    ensures l in st.listeners
    ensures DeleteRouteResult(env, st).outcome == Failed <==>
            FaultyListener(env, lb, st.listeners[l]) || st.listeners[l].protocol != HTTP ||
            exists fault :: RouteFaultPresent(env, st, lb, l, fault)
  {
    assert l in ListenersOf(st.listeners, lb);
    ListenerLookup(env, st, lb, l);
    hide FindLoadBalancer, FindListener, TreeOk, GraphOf, DeletionPlan, RouteFaultPresent, FaultyListener, LawfulOwner, DeleteStep;
    RouteTreeRefusedIff(env, st, lb, l);
  }

  lemma ListenerLookup(env: Env, st: Store, lb: Id, l: Id)
    requires LawfulOwner(env.own) && ListenersOf(st.listeners, lb) == {l} && l in st.listeners
    ensures FindListener(env, st.listeners, lb) == if FaultyListener(env, lb, st.listeners[l]) then Conflict else Found(l)
  {
  }
}
