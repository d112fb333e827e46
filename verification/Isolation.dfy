/** No operation touches what does not exactly match the acting identity, and an
    operation that meets a foreign resource in its tree writes nothing. */
module Isolation {
  import opened Ownership
  import opened Octavia
  import opened RouteModel
  import opened RouteTree
  import opened RoutePlan
  import opened RouteSteps
  import opened RouteProgress
  import opened RouteHead
  import opened RouteDeletion
  import opened GatewayTree
  import opened GatewayDeletion
  import opened Provider

  datatype Operation =
    | EnsureGatewayOp(gateway: GatewaySpec, choice: Choice)
    | EnsureRouteOp(route: RouteSpec, id: Id)
    | DeleteRouteOp
    | DeleteGatewayOp

  ghost function Perform(env: Env, op: Operation, st: Store): Result
  {
    match op
    case EnsureGatewayOp(spec, choice) => EnsureGatewayResult(env, spec, st, choice)
    case EnsureRouteOp(spec, id) => EnsureRouteResult(env, spec, st, id)
    case DeleteRouteOp => DeleteRouteResult(env, st)
    case DeleteGatewayOp => DeleteGatewayResult(env, st)
  }

  /** The IDs the cloud may assign during an operation are unused. */
  ghost predicate FreshFor(op: Operation, st: Store)
  {
    match op
    case EnsureGatewayOp(_, choice) => Fresh(st, choice.id)
    case EnsureRouteOp(_, id) => Fresh(st, id)
    case _ => true
  }

  /** An identity as it acts in one operation. A route operation acts for one
      route, a Gateway operation for the Gateway with everything beneath it. */
  datatype Claim = Claim(own: Owner, byRoute: bool)

  function ClaimOf(env: Env, op: Operation): Claim
  {
    Claim(env.own, op.EnsureRouteOp? || op.DeleteRouteOp?)
  }

  predicate RouteRole(role: Role)
  {
    !role.LoadBalancerRole? && !role.ListenerRole? && !role.FloatingIPRole?
  }

  /** What counts as an exact match: for the resources of a route, a route
      operation demands the route's full identity. */
  predicate Claims(c: Claim, tags: Tags, role: Role)
  {
    if c.byRoute && RouteRole(role) then c.own.exactRoute(tags, role) else c.own.exactGateway(tags, role)
  }

  /** The tags match none of the claims. */
  ghost predicate Foreign(claims: seq<Claim>, tags: Tags, role: Role)
  {
    forall c :: c in claims ==> !Claims(c, tags, role)
  }

  ghost predicate ForeignPair(claims: seq<Claim>, tags: Tags, first: Role, second: Role)
  {
    Foreign(claims, tags, first) && Foreign(claims, tags, second)
  }

  /** Floating IPs belong to Gateway operations only. */
  ghost predicate ForeignText(claims: seq<Claim>, text: string)
  {
    forall c :: c in claims && !c.byRoute ==> !c.own.matchesDescription(text)
  }

  ghost predicate Keeps<T>(a: map<Id, T>, b: map<Id, T>, x: Id)
  {
    x in a ==> x in b && b[x] == a[x]
  }

  ghost predicate LoadBalancersKept(claims: seq<Claim>, a: map<Id, LoadBalancer>, b: map<Id, LoadBalancer>)
  {
    forall x :: x in a && Foreign(claims, a[x].tags, LoadBalancerRole) ==> Keeps(a, b, x)
  }

  ghost predicate ListenersKept(claims: seq<Claim>, a: map<Id, Listener>, b: map<Id, Listener>)
  {
    forall x :: x in a && Foreign(claims, a[x].tags, ListenerRole) ==> Keeps(a, b, x)
  }

  ghost predicate FloatingIPsKept(claims: seq<Claim>, a: map<Id, FloatingIP>, b: map<Id, FloatingIP>)
  {
    forall x :: x in a && ForeignText(claims, a[x].description) ==> Keeps(a, b, x)
  }

  ghost predicate PoolsKept(claims: seq<Claim>, a: Pools, b: Pools)
  {
    forall x :: x in a && Foreign(claims, a[x].tags, PoolRole) ==> Keeps(a, b, x)
  }

  ghost predicate MembersKept(claims: seq<Claim>, a: Members, b: Members)
  {
    forall x :: x in a && Foreign(claims, a[x].tags, MemberRole) ==> Keeps(a, b, x)
  }

  ghost predicate MonitorsKept(claims: seq<Claim>, a: Monitors, b: Monitors)
  {
    forall x :: x in a && Foreign(claims, a[x].tags, MonitorRole) ==> Keeps(a, b, x)
  }

  ghost predicate PoliciesKept(claims: seq<Claim>, a: Policies, b: Policies)
  {
    forall x :: x in a && ForeignPair(claims, a[x].tags, PolicyExact, PolicyPrefix) ==> Keeps(a, b, x)
  }

  ghost predicate RulesKept(claims: seq<Claim>, a: Rules, b: Rules)
  {
    forall x :: x in a && ForeignPair(claims, a[x].tags, RulePath, RuleHost) ==> Keeps(a, b, x)
  }

  /** Every resource that is foreign to all the claims is unchanged. */
  ghost predicate Untouched(claims: seq<Claim>, st: Store, st': Store)
  {
    LoadBalancersKept(claims, st.loadBalancers, st'.loadBalancers) && ListenersKept(claims, st.listeners, st'.listeners) &&
    FloatingIPsKept(claims, st.floatingIPs, st'.floatingIPs) && PoolsKept(claims, st.pools, st'.pools) &&
    MembersKept(claims, st.members, st'.members) && MonitorsKept(claims, st.monitors, st'.monitors) &&
    PoliciesKept(claims, st.policies, st'.policies) && RulesKept(claims, st.rules, st'.rules)
  }

  /** The maps agree except perhaps on one ID. */
  ghost predicate OnlyAt<T>(a: map<Id, T>, b: map<Id, T>, x: Id)
  {
    forall y :: y in a && y != x ==> y in b && b[y] == a[y]
  }

  lemma PoolWritten(c: Claim, st: Store, pools: Pools, x: Id)
    requires OnlyAt(st.pools, pools, x) && (x in st.pools ==> OwnPool(c, st.pools, x))
    ensures Untouched([c], st, st.(pools := pools))
  {
    assert c in [c];
  }

  lemma MemberWritten(c: Claim, st: Store, members: Members, x: Id)
    requires OnlyAt(st.members, members, x) && (x in st.members ==> OwnMember(c, st.members, x))
    ensures Untouched([c], st, st.(members := members))
  {
    assert c in [c];
  }

  lemma MonitorWritten(c: Claim, st: Store, monitors: Monitors, x: Id)
    requires OnlyAt(st.monitors, monitors, x) && (x in st.monitors ==> OwnMonitor(c, st.monitors, x))
    ensures Untouched([c], st, st.(monitors := monitors))
  {
    assert c in [c];
  }

  lemma PolicyWritten(c: Claim, st: Store, policies: Policies, x: Id)
    requires OnlyAt(st.policies, policies, x) && (x in st.policies ==> OwnPolicy(c, st.policies, x))
    ensures Untouched([c], st, st.(policies := policies))
  {
    assert c in [c];
  }

  lemma RuleWritten(c: Claim, st: Store, rules: Rules, x: Id)
    requires OnlyAt(st.rules, rules, x) && (x in st.rules ==> OwnRule(c, st.rules, x))
    ensures Untouched([c], st, st.(rules := rules))
  {
    assert c in [c];
  }

  // ----- route mutations -----

  predicate OwnPolicy(c: Claim, policies: Policies, p: Id)
  {
    p in policies && (Claims(c, policies[p].tags, PolicyExact) || Claims(c, policies[p].tags, PolicyPrefix))
  }

  predicate OwnRule(c: Claim, rules: Rules, r: Id)
  {
    r in rules && (Claims(c, rules[r].tags, RulePath) || Claims(c, rules[r].tags, RuleHost))
  }

  predicate OwnPool(c: Claim, pools: Pools, p: Id)
  {
    p in pools && Claims(c, pools[p].tags, PoolRole)
  }

  predicate OwnMember(c: Claim, members: Members, x: Id)
  {
    x in members && Claims(c, members[x].tags, MemberRole)
  }

  predicate OwnMonitor(c: Claim, monitors: Monitors, x: Id)
  {
    x in monitors && Claims(c, monitors[x].tags, MonitorRole)
  }

  /** What the mutation edits or removes belongs to the claim. */
  predicate TargetsOwn(c: Claim, st: Store, m: Mutation)
  {
    match m
    case UpdatePool(p) => OwnPool(c, st.pools, p)
    case DeletePool(p) => OwnPool(c, st.pools, p)
    case DeleteMember(x, _) => OwnMember(c, st.members, x)
    case UpdateMember(x, _) => OwnMember(c, st.members, x)
    case UpdateMonitor(x, _) => OwnMonitor(c, st.monitors, x)
    case DeleteMonitor(x, _) => OwnMonitor(c, st.monitors, x)
    case DisablePolicy(p) => OwnPolicy(c, st.policies, p)
    case EnablePolicy(p) => OwnPolicy(c, st.policies, p)
    case DeletePolicy(p) => OwnPolicy(c, st.policies, p)
    case UpdatePolicy(p, _, _) => OwnPolicy(c, st.policies, p)
    case DeleteRule(r, _) => OwnRule(c, st.rules, r)
    case UpdateRule(r, _, _) => OwnRule(c, st.rules, r)
    case CreatePool => true
    case CreateMember(_, _) => true
    case CreateMonitor(_) => true
    case CreatePolicy(_, _) => true
    case CreateRule(_, _) => true
  }

  predicate Creates(m: Mutation)
  {
    m.CreatePool? || m.CreateMember? || m.CreateMonitor? || m.CreatePolicy? || m.CreateRule?
  }

  predicate OnPolicies(m: Mutation)
  {
    m.DisablePolicy? || m.EnablePolicy? || m.CreatePolicy? || m.UpdatePolicy? || m.DeletePolicy? ||
    m.CreateRule? || m.UpdateRule? || m.DeleteRule?
  }

  lemma ExecutePoolUntouched(c: Claim, env: Env, d: Desired, site: Site, st: Store, m: Mutation, id: Id)
    requires TargetsOwn(c, st, m) && (Creates(m) ==> Fresh(st, id)) && !OnPolicies(m)
    ensures Untouched([c], st, Execute(env, d, site, st, m, id))
  {
    assert Creates(m) ==> id !in UsedIds(st);
    OwnExists(c, st, m);
    hide Untouched, OwnPool, OwnMember, OwnMonitor, Fresh;
    var st' := Execute(env, d, site, st, m, id);
    match m {
      case CreatePool => PoolWritten(c, st, st'.pools, id);
      case UpdatePool(p) => PoolWritten(c, st, st'.pools, p);
      case DeletePool(p) => PoolWritten(c, st, st'.pools, p);
      case CreateMember(_, _) => MemberWritten(c, st, st'.members, id);
      case UpdateMember(x, _) => MemberWritten(c, st, st'.members, x);
      case DeleteMember(x, _) => MemberWritten(c, st, st'.members, x);
      case CreateMonitor(_) => MonitorWritten(c, st, st'.monitors, id);
      case UpdateMonitor(x, _) => MonitorWritten(c, st, st'.monitors, x);
      case DeleteMonitor(x, _) => MonitorWritten(c, st, st'.monitors, x);
    }
  }

  lemma ExecutePolicyUntouched(c: Claim, env: Env, d: Desired, site: Site, st: Store, m: Mutation, id: Id)
    requires TargetsOwn(c, st, m) && (Creates(m) ==> Fresh(st, id)) && OnPolicies(m)
    ensures Untouched([c], st, Execute(env, d, site, st, m, id))
  {
    assert Creates(m) ==> id !in UsedIds(st);
    OwnExists(c, st, m);
    hide Untouched, OwnPolicy, OwnRule, Fresh, NewPolicy, NewRule, RepairedPolicy, RepairedRule;
    var st' := Execute(env, d, site, st, m, id);
    match m {
      case CreatePolicy(_, _) => PolicyWritten(c, st, st'.policies, id);
      case UpdatePolicy(p, _, _) => PolicyWritten(c, st, st'.policies, p);
      case DisablePolicy(p) => PolicyWritten(c, st, st'.policies, p);
      case EnablePolicy(p) => PolicyWritten(c, st, st'.policies, p);
      case DeletePolicy(p) => PolicyWritten(c, st, st'.policies, p);
      case CreateRule(_, _) => RuleWritten(c, st, st'.rules, id);
      case UpdateRule(r, _, _) => RuleWritten(c, st, st'.rules, r);
      case DeleteRule(r, _) => RuleWritten(c, st, st'.rules, r);
    }
  }

  lemma ExecuteUntouched(c: Claim, env: Env, d: Desired, site: Site, st: Store, m: Mutation, id: Id)
    requires TargetsOwn(c, st, m) && (Creates(m) ==> Fresh(st, id))
    ensures Untouched([c], st, Execute(env, d, site, st, m, id))
  {
    hide *;
    if OnPolicies(m) {
      ExecutePolicyUntouched(c, env, d, site, st, m, id);
    } else {
      ExecutePoolUntouched(c, env, d, site, st, m, id);
    }
  }

  lemma OwnExists(c: Claim, st: Store, m: Mutation)
    requires TargetsOwn(c, st, m)
    ensures m.UpdatePool? ==> m.id in st.pools
    ensures m.UpdateMember? ==> m.id in st.members
    ensures m.UpdateMonitor? ==> m.id in st.monitors
    ensures m.UpdatePolicy? || m.DisablePolicy? || m.EnablePolicy? ==> m.id in st.policies
    ensures m.UpdateRule? ==> m.id in st.rules
  {
  }

  function RouteClaim(env: Env): Claim
  {
    Claim(env.own, true)
  }

  function GatewayClaim(env: Env): Claim
  {
    Claim(env.own, false)
  }

  lemma PoolTargets(env: Env, d: Desired, st: Store, site: Site, m: Mutation)
    requires TreeOk(env, st, site) && JustifiedPoolStep(env, d, st, site, m)
    ensures TargetsOwn(RouteClaim(env), st, m)
  {
    hide PolicyTreeOk, PoolSettled, MonitorSettled, Stale, MissingKeys, MemberText;
    var p := PoolAt(st.pools, site.loadBalancer);
    if p.Some? {
      assert PoolOk(env, site.loadBalancer, st.pools[p.value]);
      assert MembersOk(env, st.members, p.value) && MonitorsOk(env, st.monitors, p.value);
    }
  }

  lemma RoleIsOwn(own: Owner, tags: Tags, first: Role, second: Role)
    requires RoleAmong(own, tags, first, second).Some?
    ensures own.exactRoute(tags, first) || own.exactRoute(tags, second)
  {
  }

  lemma PolicyInTree(env: Env, st: Store, site: Site, p: Id)
    requires TreeOk(env, st, site) && site.listener != "" && p in PoliciesOf(st.policies, site.listener)
    ensures OwnPolicy(RouteClaim(env), st.policies, p) && RulesOk(env, st.rules, p)
  {
    hide PoolTreeOk, RulesOk, RoleAmong;
    assert PolicyOk(env, site.listener, st.policies[p]);
    RoleIsOwn(env.own, st.policies[p].tags, PolicyExact, PolicyPrefix);
  }

  lemma RuleInTree(env: Env, rules: Rules, p: Id, r: Id)
    requires RulesOk(env, rules, p) && r in RulesOf(rules, p)
    ensures OwnRule(RouteClaim(env), rules, r)
  {
    hide RoleAmong;
    assert RuleOk(env, rules[r]);
    RoleIsOwn(env.own, rules[r].tags, RulePath, RuleHost);
  }

  lemma ViewInTree(env: Env, st: Store, site: Site, role: Role)
    requires TreeOk(env, st, site) && site.listener != "" && View(env, st, site, role).HasPolicy?
    ensures var v := View(env, st, site, role);
            OwnPolicy(RouteClaim(env), st.policies, v.id) &&
            (v.path.HasRule? ==> OwnRule(RouteClaim(env), st.rules, v.path.id)) &&
            (v.host.HasRule? ==> OwnRule(RouteClaim(env), st.rules, v.host.id))
  {
    hide TreeOk, RulesOk, RolePolicy, RoleRule, OwnPolicy, OwnRule;
    ViewedPolicy(env, st, site, role);
    var v := View(env, st, site, role);
    PolicyInTree(env, st, site, v.id);
    if v.path.HasRule? {
      RuleInTree(env, st.rules, v.id, v.path.id);
    }
    if v.host.HasRule? {
      RuleInTree(env, st.rules, v.id, v.host.id);
    }
  }

  lemma EditTargets(env: Env, d: Desired, st: Store, site: Site, m: Mutation, role: Role)
    requires TreeOk(env, st, site) && site.listener != "" && JustifiedEdit(env, d, st, site, m, role)
    ensures TargetsOwn(RouteClaim(env), st, m)
  {
    hide TreeOk, View, WantedPolicy, WantedRule, OwnPolicy, OwnRule, PolicySettled, RuleSettled;
    if View(env, st, site, role).HasPolicy? {
      ViewInTree(env, st, site, role);
    }
  }

  lemma JustifiedTargets(env: Env, d: Desired, st: Store, site: Site, m: Mutation)
    requires TreeOk(env, st, site) && site.listener != "" && Justified(env, d, st, site, m)
    ensures TargetsOwn(RouteClaim(env), st, m)
  {
    hide TreeOk, View, OwnPolicy, OwnRule, JustifiedEdit, JustifiedPoolStep, Dark, PolicyDiff,
         NonPolicyDiff;
    if m.DisablePolicy? || m.EnablePolicy? {
      var role :| JustifiedSwitch(env, st, site, m.id, role, m.DisablePolicy?);
      ViewInTree(env, st, site, role);
    } else if role :| JustifiedEdit(env, d, st, site, m, role) {
      EditTargets(env, d, st, site, m, role);
    } else {
      PoolTargets(env, d, st, site, m);
    }
  }

  lemma LeafTargets(env: Env, st: Store, site: Site, m: Mutation)
    requires TreeOk(env, st, site) && RemovesLeaf(st, site, m)
    requires m.DisablePolicy? || m.DeleteRule? || m.DeletePolicy? ==> site.listener != ""
    ensures TargetsOwn(RouteClaim(env), st, m) && !Creates(m)
  {
    hide PolicyTreeOk, RulesOk, OwnPolicy, OwnRule;
    match m {
      case DisablePolicy(p) => PolicyInTree(env, st, site, p);
      case DeletePolicy(p) => PolicyInTree(env, st, site, p);
      case DeleteRule(r, p) =>
        PolicyInTree(env, st, site, p);
        RuleInTree(env, st.rules, p, r);
      case DeletePool(p) => PoolInTree(env, st, site, p);
      case DeleteMonitor(_, p) => PoolInTree(env, st, site, p);
      case DeleteMember(_, p) => PoolInTree(env, st, site, p);
    }
  }

  lemma PoolInTree(env: Env, st: Store, site: Site, p: Id)
    requires TreeOk(env, st, site) && p in PoolsOf(st.pools, site.loadBalancer)
    ensures OwnPool(RouteClaim(env), st.pools, p)
    ensures forall x :: x in MonitorsOf(st.monitors, p) ==> OwnMonitor(RouteClaim(env), st.monitors, x)
    ensures forall x :: x in MembersOf(st.members, p) ==> OwnMember(RouteClaim(env), st.members, x)
  {
    hide PolicyTreeOk, MemberText;
    assert PoolOk(env, site.loadBalancer, st.pools[p]);
    assert MembersOk(env, st.members, p) && MonitorsOk(env, st.monitors, p);
  }

  // ----- the four operations -----

  lemma NothingTouched(claims: seq<Claim>, st: Store)
    ensures Untouched(claims, st, st)
  {
  }

  lemma EnsureRouteUntouched(env: Env, spec: RouteSpec, st: Store, id: Id)
    requires LawfulNet(env.net) && Fresh(st, id) && "" !in st.listeners
    ensures Untouched([RouteClaim(env)], st, EnsureRouteResult(env, spec, st, id).store)
  {
    hide LawfulNet, Fresh, DesiredFor, Observe, EnsurePlan, GraphOf, TreeOk, Execute, RepairAdminState, ViewGateway,
         Untouched;
    NothingTouched([RouteClaim(env)], st);
    var d := DesiredFor(env.net, spec);
    var view := ViewGateway(env, st, Some(spec));
    if d.Some? && view.GatewayReady? {
      ReadySite(env, st, spec, view.site);
      DesiredForOk(env.net, spec, d.value);
      EnsureRouteAtUntouched(env, d.value, st, spec, view.site, id);
    }
  }

  lemma EnsureRouteAtUntouched(env: Env, d: Desired, st: Store, spec: RouteSpec, site: Site, id: Id)
    requires LawfulNet(env.net) && Fresh(st, id) && DesiredOk(env.net, d) && "" !in st.listeners
    requires ViewGateway(env, st, Some(spec)) == GatewayReady(site)
    requires site.loadBalancer in st.loadBalancers && site.listener in st.listeners
    ensures Untouched([RouteClaim(env)], st, EnsureRouteAt(env, d, st, site, id).store)
  {
    hide LawfulNet, Fresh, DesiredOk, EnsurePlan, GraphOf, TreeOk, Execute, RepairAdminState, ViewGateway,
         Untouched, Justified, TargetsOwn;
    NothingTouched([RouteClaim(env)], st);
    if TreeOk(env, st, site) && EnsurePlan(env.net, d, GraphOf(env, st, site)).Some? {
      var plan := EnsurePlan(env.net, d, GraphOf(env, st, site)).value;
      if plan == [] {
        RepairUntouched(env, d.spec, st, spec, site);
      } else {
        PlanHeadJustified(env, d, st, site, plan);
        JustifiedTargets(env, d, st, site, plan[0]);
        ExecuteUntouched(RouteClaim(env), env, d, site, st, plan[0], id);
      }
    }
  }

  /** The Gateway a route sees is owned by the same identity. */
  lemma SiteOwned(env: Env, st: Store, requirements: Option<RouteSpec>, site: Site)
    requires ViewGateway(env, st, requirements) == GatewayReady(site)
    ensures site.loadBalancer in st.loadBalancers
    ensures env.own.exactGateway(st.loadBalancers[site.loadBalancer].tags, LoadBalancerRole)
    ensures requirements.Some? ==> site.listener in st.listeners
    ensures site.listener in st.listeners ==>
              site.listener == "" || env.own.exactGateway(st.listeners[site.listener].tags, ListenerRole)
  {
  }

  lemma EnableListenerUntouched(c: Claim, st: Store, l: Id)
    requires l in st.listeners && c.own.exactGateway(st.listeners[l].tags, ListenerRole)
    ensures Untouched([c], st, EnableListener(st, l))
  {
    assert c in [c];
  }

  lemma EnableLoadBalancerUntouched(c: Claim, st: Store, lb: Id)
    requires lb in st.loadBalancers && c.own.exactGateway(st.loadBalancers[lb].tags, LoadBalancerRole)
    ensures Untouched([c], st, EnableLoadBalancer(st, lb))
  {
    assert c in [c];
  }

  lemma RepairUntouched(env: Env, spec: RouteSpec, st: Store, requirements: RouteSpec, site: Site)
    requires ViewGateway(env, st, Some(requirements)) == GatewayReady(site) && "" !in st.listeners
    requires site.loadBalancer in st.loadBalancers && site.listener in st.listeners
    ensures Untouched([RouteClaim(env)], st, RepairAdminState(env, spec, st, site).store)
  {
    hide Untouched, ViewGateway, EnableListener, EnableLoadBalancer, FloatingIPStateOf;
    NothingTouched([RouteClaim(env)], st);
    SiteOwned(env, st, Some(requirements), site);
    EnableListenerUntouched(RouteClaim(env), st, site.listener);
    EnableLoadBalancerUntouched(RouteClaim(env), st, site.loadBalancer);
  }

  lemma DeleteRouteUntouched(env: Env, st: Store)
    requires "" !in st.listeners
    ensures Untouched([RouteClaim(env)], st, DeleteRouteResult(env, st).store)
  {
    hide TreeOk, GraphOf, DeletionPlan, Execute, Untouched, ViewGateway, RemovesLeaf, TargetsOwn;
    NothingTouched([RouteClaim(env)], st);
    var view := ViewGateway(env, st, None);
    if view.GatewayReady? && TreeOk(env, st, view.site) && DeletionPlan(GraphOf(env, st, view.site)) != [] {
      DeletionRemovesLeaves(env, st, view.site);
      var m := DeletionPlan(GraphOf(env, st, view.site))[0];
      PolicyStepsNeedListener(env, st, view.site, m);
      LeafTargets(env, st, view.site, m);
      ExecuteUntouched(RouteClaim(env), env, NO_ROUTE, view.site, st, m, "");
    }
  }

  lemma PolicyStepsNeedListener(env: Env, st: Store, site: Site, m: Mutation)
    requires TreeOk(env, st, site) && DeletionPlan(GraphOf(env, st, site)) != [] && m == DeletionPlan(GraphOf(env, st, site))[0]
    ensures m.DisablePolicy? || m.DeleteRule? || m.DeletePolicy? ==> site.listener != ""
  {
    hide PoolTreeOk, PolicyTreeOk, PoliciesSeen, PolicyDeletionPart, DeletionPlan, GraphOf;
    PlanParts(env, st, site);
    if site.listener == "" {
      assert PoliciesSeen(env, st, site.listener) == [] by { NoListenerNoPolicies(env, st, site); }
      EmptyParts(PoliciesSeen(env, st, site.listener));
      PoolPartKinds(env, st, site);
    }
  }

  lemma NoListenerNoPolicies(env: Env, st: Store, site: Site)
    requires TreeOk(env, st, site) && site.listener == ""
    ensures PoliciesSeen(env, st, site.listener) == []
  {
  }

  lemma PoolPartKinds(env: Env, st: Store, site: Site)
    requires PoolPart(env, st, site.loadBalancer) != []
    ensures var m := PoolPart(env, st, site.loadBalancer)[0]; m.DeleteMonitor? || m.DeleteMember? || m.DeletePool?
  {
  }

  lemma PolicyBeneath(env: Env, st: Store, lb: Id, p: Id)
    requires GatewayTreeOk(env, st, lb) && p in st.policies && st.policies[p].parent in ListenersOf(st.listeners, lb)
    ensures OwnPolicy(GatewayClaim(env), st.policies, p)
    ensures forall r :: r in RulesOf(st.rules, p) ==> OwnRule(GatewayClaim(env), st.rules, r)
  {
    hide PoolsOwned;
    assert ListenerSubtreeOwned(env, st, lb, st.policies[p].parent);
    assert p in PoliciesOf(st.policies, st.policies[p].parent);
    assert PolicyOwned(env, st.policies[p].parent, st.policies[p]) && RulesOwned(env, st.rules, p);
  }

  lemma PoolBeneath(env: Env, st: Store, lb: Id, p: Id)
    requires GatewayTreeOk(env, st, lb) && p in PoolsOf(st.pools, lb)
    ensures OwnPool(GatewayClaim(env), st.pools, p)
    ensures forall x :: x in MonitorsOf(st.monitors, p) ==> OwnMonitor(GatewayClaim(env), st.monitors, x)
    ensures forall x :: x in MembersOf(st.members, p) ==> OwnMember(GatewayClaim(env), st.members, x)
  {
    hide ListenersOwned;
    assert PoolOwned(env, lb, st.pools[p]) && PoolSubtreeOwned(env, st.members, st.monitors, p);
  }

  lemma ListenerRemoved(env: Env, st: Store, lb: Id, l: Id)
    requires GatewayTreeOk(env, st, lb) && l in ListenersOf(st.listeners, lb)
    ensures Untouched([GatewayClaim(env)], st, st.(listeners := st.listeners - {l}))
  {
    hide PoolsOwned, PoliciesOwned;
    assert GatewayClaim(env) in [GatewayClaim(env)] && ListenerSubtreeOwned(env, st, lb, l);
  }

  lemma FloatingIPRemoved(env: Env, st: Store, port: Id, f: Id)
    requires FloatingIPsOwned(env, st.floatingIPs, port) && f in FloatingIPsOf(st.floatingIPs, port)
    ensures Untouched([GatewayClaim(env)], st, st.(floatingIPs := st.floatingIPs - {f}))
  {
    assert GatewayClaim(env) in [GatewayClaim(env)] && FloatingIPOwned(env, st.floatingIPs[f]);
  }

  lemma LoadBalancerRemoved(env: Env, st: Store, lb: Id)
    requires lb in st.loadBalancers && env.own.exactGateway(st.loadBalancers[lb].tags, LoadBalancerRole)
    ensures Untouched([GatewayClaim(env)], st, st.(loadBalancers := st.loadBalancers - {lb}))
  {
    assert GatewayClaim(env) in [GatewayClaim(env)];
  }

  /** What a Gateway removal takes away belongs to the identity. */
  lemma RemovalUntouched(env: Env, st: Store, lb: Id, m: Removal)
    requires lb in st.loadBalancers && env.own.exactGateway(st.loadBalancers[lb].tags, LoadBalancerRole)
    requires Deletable(env, st, lb) && RemovesGatewayLeaf(st, lb, m)
    ensures Untouched([GatewayClaim(env)], st, Remove(st, m))
  {
    hide Untouched, GatewayTreeOk, FloatingIPsOwned, OwnPool, OwnMember, OwnMonitor, OwnPolicy, OwnRule;
    var st' := Remove(st, m);
    match m {
      case RemoveRule(r, p) => PolicyBeneath(env, st, lb, p); RuleWritten(GatewayClaim(env), st, st'.rules, r);
      case RemovePolicy(p) => PolicyBeneath(env, st, lb, p); PolicyWritten(GatewayClaim(env), st, st'.policies, p);
      case RemoveMonitor(x, p) => PoolBeneath(env, st, lb, p); MonitorWritten(GatewayClaim(env), st, st'.monitors, x);
      case RemoveMember(x, p) => PoolBeneath(env, st, lb, p); MemberWritten(GatewayClaim(env), st, st'.members, x);
      case RemovePool(p) => PoolBeneath(env, st, lb, p); PoolWritten(GatewayClaim(env), st, st'.pools, p);
      case RemoveListener(l) => ListenerRemoved(env, st, lb, l);
      case RemoveFloatingIP(f) => FloatingIPRemoved(env, st, st.loadBalancers[lb].vipPort, f);
      case RemoveLoadBalancer(_) => LoadBalancerRemoved(env, st, lb);
    }
  }

  lemma DeleteGatewayUntouched(env: Env, st: Store)
    ensures Untouched([GatewayClaim(env)], st, DeleteGatewayResult(env, st).store)
  {
    hide Untouched, Deletable, Remove, RemovesGatewayLeaf, FullPlan;
    NothingTouched([GatewayClaim(env)], st);
    var found := FindLoadBalancer(env, st.loadBalancers);
    if found.Found? && Deletable(env, st, found.id) {
      GatewayDeletionTail(env, st, found.id);
      RemovalUntouched(env, st, found.id, FullPlan(st, found.id)[0]);
    }
  }

  lemma EnsureGatewayAdminUntouched(env: Env, spec: GatewaySpec, st: Store, lb: Id, choice: Choice)
    requires lb in st.loadBalancers && env.own.exactGateway(st.loadBalancers[lb].tags, LoadBalancerRole)
    requires Fresh(st, choice.id)
    ensures Untouched([GatewayClaim(env)], st, EnsureGatewayAdmin(env, spec, st, lb, FindListener(env, st.listeners, lb), choice).store)
  {
    hide Untouched, HasRouteResources, EnableListener, EnableLoadBalancer;
    NothingTouched([GatewayClaim(env)], st);
    var listener := FindListener(env, st.listeners, lb);
    if listener.Found? {
      EnableListenerUntouched(GatewayClaim(env), st, listener.id);
    } else {
      NewListenerUntouched([GatewayClaim(env)], st, choice.id, NewListener(env, spec, lb));
    }
    EnableLoadBalancerUntouched(GatewayClaim(env), st, lb);
  }

  lemma NewListenerUntouched(claims: seq<Claim>, st: Store, id: Id, listener: Listener)
    requires Fresh(st, id)
    ensures Untouched(claims, st, st.(listeners := st.listeners[id := listener]))
  {
  }

  lemma NewFloatingIPUntouched(claims: seq<Claim>, st: Store, id: Id, f: FloatingIP)
    requires Fresh(st, id)
    ensures Untouched(claims, st, st.(floatingIPs := st.floatingIPs[id := f]))
  {
  }

  lemma NewLoadBalancerUntouched(claims: seq<Claim>, st: Store, id: Id, lb: LoadBalancer)
    requires Fresh(st, id)
    ensures Untouched(claims, st, st.(loadBalancers := st.loadBalancers[id := lb]))
  {
  }

  lemma DropFloatingIPUntouched(env: Env, st: Store, port: Id, f: Id)
    requires FloatingIPsTrusted(env, st.floatingIPs, port) && f in FloatingIPsOf(st.floatingIPs, port)
    ensures Untouched([GatewayClaim(env)], st, st.(floatingIPs := st.floatingIPs - {f}))
  {
    assert GatewayClaim(env) in [GatewayClaim(env)] && FloatingIPTrusted(env, port, st.floatingIPs[f]);
  }

  lemma EnsureGatewayUntouched(env: Env, spec: GatewaySpec, st: Store, choice: Choice)
    requires Fresh(st, choice.id)
    ensures Untouched([GatewayClaim(env)], st, EnsureGatewayResult(env, spec, st, choice).store)
  {
    hide Untouched, Fresh, FindLoadBalancer, FindListener, FloatingIPStateOf, GatewayTreeOk, EnsureGatewayAdmin,
         NewLoadBalancer, NewFloatingIP, Blank, FloatingIPsTrusted, FloatingIPsAsRequired;
    NothingTouched([GatewayClaim(env)], st);
    NewLoadBalancerUntouched([GatewayClaim(env)], st, choice.id, NewLoadBalancer(env, spec, choice));
    var found := FindLoadBalancer(env, st.loadBalancers);
    if found.Found? {
      var port := st.loadBalancers[found.id].vipPort;
      EnsureGatewayAdminUntouched(env, spec, st, found.id, choice);
      NewFloatingIPUntouched([GatewayClaim(env)], st, choice.id, NewFloatingIP(env, port, spec.externalNetwork));
      var state := FloatingIPStateOf(env, st.floatingIPs, port, spec.externalNetwork);
      if state.Superfluous? {
        DropFloatingIPUntouched(env, st, port, state.first);
      }
    }
  }

  /** Isolation: an operation leaves every existing resource that does not exactly
      match the acting identity as it was. For a Gateway operation that is the
      Gateway's identity; for a route operation it is the route's, so another
      route's pool, members, monitor, policies and rules are left alone too. */
  lemma OperationIsolated(env: Env, op: Operation, st: Store)
    requires LawfulNet(env.net) && "" !in st.listeners && FreshFor(op, st)
    ensures Untouched([ClaimOf(env, op)], st, Perform(env, op, st).store)
  {
    hide LawfulNet, Untouched, Fresh, EnsureGatewayResult, EnsureRouteResult, DeleteRouteResult, DeleteGatewayResult;
    match op {
      case EnsureGatewayOp(spec, choice) => EnsureGatewayUntouched(env, spec, st, choice);
      case EnsureRouteOp(spec, id) => EnsureRouteUntouched(env, spec, st, id);
      case DeleteRouteOp => DeleteRouteUntouched(env, st);
      case DeleteGatewayOp => DeleteGatewayUntouched(env, st);
    }
  }

  // ----- runs of many identities -----

  datatype Turn = Turn(env: Env, op: Operation)

  ghost predicate IsOperationRun(states: seq<Store>, turns: seq<Turn>)
    decreases |turns|
  {
    |states| == |turns| + 1 &&
    (turns == [] ||
     (LawfulNet(turns[0].env.net) && FreshFor(turns[0].op, states[0]) &&
      states[1] == Perform(turns[0].env, turns[0].op, states[0]).store &&
      IsOperationRun(states[1..], turns[1..])))
  }

  function ClaimsIn(turns: seq<Turn>): (r: seq<Claim>)
    ensures |r| == |turns| && forall i :: 0 <= i < |r| ==> r[i] == ClaimOf(turns[i].env, turns[i].op)
  {
    seq(|turns|, i requires 0 <= i < |turns| => ClaimOf(turns[i].env, turns[i].op))
  }

  lemma UntouchedWider(claims: seq<Claim>, wider: seq<Claim>, st: Store, st': Store)
    requires Untouched(claims, st, st') && forall c :: c in claims ==> c in wider
    ensures Untouched(wider, st, st')
  {
    assert forall tags, role :: Foreign(wider, tags, role) ==> Foreign(claims, tags, role);
    assert forall text :: ForeignText(wider, text) ==> ForeignText(claims, text);
  }

  lemma UntouchedTransitive(claims: seq<Claim>, a: Store, b: Store, c: Store)
    requires Untouched(claims, a, b) && Untouched(claims, b, c)
    ensures Untouched(claims, a, c)
  {
    hide Foreign, ForeignText;
  }

  lemma ExecuteKeepsGateway(env: Env, d: Desired, site: Site, st: Store, m: Mutation, id: Id)
    ensures var st' := Execute(env, d, site, st, m, id);
            st'.listeners == st.listeners && st'.loadBalancers == st.loadBalancers && st'.floatingIPs == st.floatingIPs
  {
  }

  lemma EnsureRouteKeepsKeys(env: Env, spec: RouteSpec, st: Store, id: Id)
    ensures EnsureRouteResult(env, spec, st, id).store.listeners.Keys == st.listeners.Keys
  {
    hide DesiredFor, ViewGateway, TreeOk, GraphOf, EnsurePlan, FloatingIPStateOf, Execute;
    var d := DesiredFor(env.net, spec);
    var view := ViewGateway(env, st, Some(spec));
    if d.Some? && view.GatewayReady? {
      ReadySite(env, st, spec, view.site);
      if TreeOk(env, st, view.site) {
        var plan := EnsurePlan(env.net, d.value, GraphOf(env, st, view.site));
        if plan.Some? && plan.value != [] {
          ExecuteKeepsGateway(env, d.value, view.site, st, plan.value[0], id);
        }
      }
    }
  }

  lemma DeleteRouteKeepsGateway(env: Env, st: Store)
    ensures var st' := DeleteRouteResult(env, st).store;
            st'.listeners == st.listeners && st'.loadBalancers == st.loadBalancers && st'.floatingIPs == st.floatingIPs
  {
    hide ViewGateway, TreeOk, GraphOf, DeletionPlan, Execute;
    var view := ViewGateway(env, st, None);
    if view.GatewayReady? && TreeOk(env, st, view.site) && DeletionPlan(GraphOf(env, st, view.site)) != [] {
      ExecuteKeepsGateway(env, NO_ROUTE, view.site, st, DeletionPlan(GraphOf(env, st, view.site))[0], "");
    }
  }

  lemma RemoveKeepsKeys(st: Store, m: Removal)
    ensures Remove(st, m).listeners.Keys <= st.listeners.Keys
  {
  }

  lemma EnsureGatewayAdminKeys(env: Env, spec: GatewaySpec, st: Store, lb: Id, listener: Lookup, choice: Choice)
    requires lb in st.loadBalancers && (listener.Found? ==> listener.id in st.listeners)
    ensures EnsureGatewayAdmin(env, spec, st, lb, listener, choice).store.listeners.Keys <= st.listeners.Keys + {choice.id}
  {
    hide HasRouteResources;
  }

  lemma EnsureGatewayKeys(env: Env, spec: GatewaySpec, st: Store, choice: Choice)
    ensures EnsureGatewayResult(env, spec, st, choice).store.listeners.Keys <= st.listeners.Keys + {choice.id}
  {
    hide FindLoadBalancer, FindListener, FloatingIPStateOf, GatewayTreeOk, Blank, EnsureGatewayAdmin;
    var found := FindLoadBalancer(env, st.loadBalancers);
    if found.Found? && !FindListener(env, st.listeners, found.id).Conflict? {
      EnsureGatewayAdminKeys(env, spec, st, found.id, FindListener(env, st.listeners, found.id), choice);
    }
  }

  lemma DeleteGatewayKeys(env: Env, st: Store)
    ensures DeleteGatewayResult(env, st).store.listeners.Keys <= st.listeners.Keys
  {
    hide FindLoadBalancer, Deletable, FullPlan, Remove;
    var found := FindLoadBalancer(env, st.loadBalancers);
    if found.Found? {
      RemoveKeepsKeys(st, FullPlan(st, found.id)[0]);
    }
  }

  lemma NoEmptyListener(env: Env, op: Operation, st: Store)
    requires "" !in st.listeners && FreshFor(op, st)
    ensures "" !in Perform(env, op, st).store.listeners
  {
    hide EnsureGatewayResult, DeleteGatewayResult, EnsureRouteResult, DeleteRouteResult, Fresh;
    match op {
      case EnsureGatewayOp(spec, choice) =>
        FreshNotEmpty(st, choice.id);
        EnsureGatewayKeys(env, spec, st, choice);
      case EnsureRouteOp(spec, id) => EnsureRouteKeepsKeys(env, spec, st, id);
      case DeleteRouteOp => DeleteRouteKeepsGateway(env, st);
      case DeleteGatewayOp => DeleteGatewayKeys(env, st);
    }
  }

  lemma FreshNotEmpty(st: Store, id: Id)
    requires Fresh(st, id)
    ensures id != ""
  {
  }

  /** In any run, whatever matches none of the acting identities is unchanged at
      the end. */
  lemma {:induction false} RunIsolated(states: seq<Store>, turns: seq<Turn>)
    requires IsOperationRun(states, turns) && "" !in states[0].listeners
    ensures Untouched(ClaimsIn(turns), states[0], states[|turns|])
    decreases |turns|
  {
    hide LawfulNet, Untouched, FreshFor, Perform;
    var all := ClaimsIn(turns);
    if turns == [] {
      NothingTouched(all, states[0]);
    } else {
      OperationIsolated(turns[0].env, turns[0].op, states[0]);
      NoEmptyListener(turns[0].env, turns[0].op, states[0]);
      RunIsolated(states[1..], turns[1..]);
      assert ClaimOf(turns[0].env, turns[0].op) == all[0];
      assert ClaimsIn(turns[1..]) == all[1..];
      UntouchedWider([ClaimOf(turns[0].env, turns[0].op)], all, states[0], states[1]);
      UntouchedWider(all[1..], all, states[1], states[|turns|]);
      UntouchedTransitive(all, states[0], states[1], states[|turns|]);
    }
  }

  // ----- all or nothing -----

  /** Only a call that reports progress may have written anything. */
  lemma OnlyProgressWrites(env: Env, op: Operation, st: Store)
    ensures Perform(env, op, st).outcome != Progressing ==> Perform(env, op, st).store == st
  {
    hide FindLoadBalancer, FindListener, FloatingIPStateOf, GatewayTreeOk, ViewGateway, TreeOk, GraphOf, EnsurePlan, DeletionPlan,
         DesiredFor, Deletable, FullPlan, HasRouteResources, Blank, Execute, Remove;
  }

  // ----- what a call reports about its load balancer -----

  /** What a call refuses before it looks at the state of the load balancer. */
  ghost predicate RefusesOutright(env: Env, op: Operation, lb: LoadBalancer)
  {
    match op
    case EnsureGatewayOp(spec, _) =>
      Blank(spec.vipSubnet) || spec.listenerPort < 1 || spec.listenerPort > 65535 || lb.vipSubnet != spec.vipSubnet ||
      (spec.provider != "" && lb.provider != spec.provider)
    case EnsureRouteOp(spec, _) => DesiredFor(env.net, spec).None?
    case _ => false
  }

  /** While the load balancer is pending every call waits, and once it is broken every
      call fails; neither writes anything. */
  lemma StatusDecides(env: Env, op: Operation, st: Store, lb: Id)
    requires FindLoadBalancer(env, st.loadBalancers) == Found(lb) && lb in st.loadBalancers && st.loadBalancers[lb].status != Active
    ensures Perform(env, op, st) ==
            Result(st, if st.loadBalancers[lb].status.Broken? || RefusesOutright(env, op, st.loadBalancers[lb]) then Failed else Progressing)
  {
    hide FindLoadBalancer, FindListener, DesiredFor, Blank, EnsureGatewayAt, EnsureRouteAt, Deletable, FullPlan;
  }

  /** Without a load balancer the deletions have nothing left to do, a route waits for
      its Gateway, and only EnsureGateway writes: it creates one. */
  lemma AbsenceDecides(env: Env, op: Operation, st: Store)
    requires FindLoadBalancer(env, st.loadBalancers) == Absent
    ensures op.DeleteRouteOp? || op.DeleteGatewayOp? ==> Perform(env, op, st) == Result(st, Ready)
    ensures op.EnsureRouteOp? ==>
              Perform(env, op, st) == Result(st, if DesiredFor(env.net, op.route).None? then Failed else Progressing)
    ensures op.EnsureGatewayOp? ==>
              var spec, choice := op.gateway, op.choice;
              var r := Perform(env, op, st);
              if Blank(spec.vipSubnet) || spec.listenerPort < 1 || spec.listenerPort > 65535 then r == Result(st, Failed)
              else
                r.outcome == Progressing && r.store == st.(loadBalancers := r.store.loadBalancers) &&
                choice.id in r.store.loadBalancers && r.store.loadBalancers - {choice.id} == st.loadBalancers - {choice.id} &&
                var lb := r.store.loadBalancers[choice.id];
                lb.project == env.project && lb.tags == env.own.gatewayTags(LoadBalancerRole) && lb.vipSubnet == spec.vipSubnet &&
                (spec.provider != "" ==> lb.provider == spec.provider) && lb.up
  {
    hide FindLoadBalancer, FindListener, DesiredFor, Blank, EnsureGatewayAt, EnsureRouteAt, Deletable, FullPlan;
  }

  /** One thing wrong beneath the Gateway's load balancer: a resource that fails a
      check of its own, or a second one where only one may be. */
  datatype Fault =
    | BadListener(listener: Id)
    | BadPolicy(listener: Id, policy: Id)
    | BadRule(listener: Id, policy: Id, rule: Id)
    | BadPool(pool: Id)
    | BadMember(pool: Id, member: Id)
    | BadMonitor(pool: Id, monitor: Id)
    | BadFloatingIP(floatingIP: Id)
    | TwoListeners(first: Id, second: Id)
    | TwoPools(first: Id, second: Id)
    | TwoMonitors(pool: Id, first: Id, second: Id)

  predicate WrongProject(env: Env, project: string)
  {
    project != "" && project != env.project
  }

  /** The tags match the acting identity in neither role. */
  predicate InNeither(c: Claim, tags: Tags, first: Role, second: Role)
  {
    !Claims(c, tags, first) && !Claims(c, tags, second)
  }

  predicate NamesOther(reported: seq<Id>, id: Id)
  {
    exists i :: 0 <= i < |reported| && reported[i] != id
  }

  predicate OtherParent(reported: Id, id: Id)
  {
    reported != "" && reported != id
  }

  predicate FaultyRule(env: Env, c: Claim, rule: Rule)
  {
    WrongProject(env, rule.project) || InNeither(c, rule.tags, RulePath, RuleHost)
  }

  predicate FaultyPolicy(env: Env, c: Claim, listener: Id, policy: Policy)
  {
    WrongProject(env, policy.project) || InNeither(c, policy.tags, PolicyExact, PolicyPrefix) ||
    OtherParent(policy.reported, listener)
  }

  predicate FaultyPool(env: Env, c: Claim, lb: Id, pool: Pool)
  {
    WrongProject(env, pool.project) || !Claims(c, pool.tags, PoolRole) || NamesOther(pool.reported, lb)
  }

  /** A route also refuses members it cannot compare. */
  predicate FaultyMember(env: Env, c: Claim, pool: Id, member: Member)
  {
    WrongProject(env, member.project) || !Claims(c, member.tags, MemberRole) || OtherParent(member.reported, pool) ||
    (c.byRoute && (env.net.parse(member.address).None? || !PortOk(member.port)))
  }

  predicate FaultyMonitor(env: Env, c: Claim, pool: Id, monitor: Monitor)
  {
    WrongProject(env, monitor.project) || !Claims(c, monitor.tags, MonitorRole) || NamesOther(monitor.reported, pool)
  }

  predicate FaultyListener(env: Env, lb: Id, listener: Listener)
  {
    WrongProject(env, listener.project) || !env.own.exactGateway(listener.tags, ListenerRole) ||
    NamesOther(listener.reported, lb)
  }

  /** Route operations do not look at Floating IPs before they mutate a route, and a
      deletion does not look at the reported port. */
  predicate FaultyFloatingIP(env: Env, op: Operation, port: Id, f: FloatingIP)
  {
    (if f.project == "" then f.tenant else f.project) != env.project || !env.own.matchesDescription(f.description) ||
    (op.EnsureGatewayOp? && OtherParent(f.reported, port))
  }

  /** The fault is really there, by the checks the operation makes. */
  ghost predicate Present(env: Env, op: Operation, st: Store, lb: Id, fault: Fault)
    requires lb in st.loadBalancers
  {
    var c := ClaimOf(env, op);
    match fault
    case BadListener(l) => l in ListenersOf(st.listeners, lb) && FaultyListener(env, lb, st.listeners[l])
    case BadPolicy(l, p) =>
      l in ListenersOf(st.listeners, lb) && p in PoliciesOf(st.policies, l) && FaultyPolicy(env, c, l, st.policies[p])
    case BadRule(l, p, r) =>
      l in ListenersOf(st.listeners, lb) && p in PoliciesOf(st.policies, l) && r in RulesOf(st.rules, p) &&
      FaultyRule(env, c, st.rules[r])
    case BadPool(p) => p in PoolsOf(st.pools, lb) && FaultyPool(env, c, lb, st.pools[p])
    case BadMember(p, x) =>
      p in PoolsOf(st.pools, lb) && x in MembersOf(st.members, p) && FaultyMember(env, c, p, st.members[x])
    case BadMonitor(p, x) =>
      p in PoolsOf(st.pools, lb) && x in MonitorsOf(st.monitors, p) && FaultyMonitor(env, c, p, st.monitors[x])
    case BadFloatingIP(f) =>
      !c.byRoute && f in FloatingIPsOf(st.floatingIPs, st.loadBalancers[lb].vipPort) &&
      FaultyFloatingIP(env, op, st.loadBalancers[lb].vipPort, st.floatingIPs[f])
    case TwoListeners(l, l2) =>
      !op.DeleteGatewayOp? && l != l2 && l in ListenersOf(st.listeners, lb) && l2 in ListenersOf(st.listeners, lb)
    case TwoPools(p, q) => c.byRoute && p != q && p in PoolsOf(st.pools, lb) && q in PoolsOf(st.pools, lb)
    case TwoMonitors(p, x, y) =>
      c.byRoute && p in PoolsOf(st.pools, lb) && x != y && x in MonitorsOf(st.monitors, p) && y in MonitorsOf(st.monitors, p)
  }

  predicate OnListener(fault: Fault)
  {
    fault.BadListener? || fault.BadPolicy? || fault.BadRule? || fault.TwoListeners?
  }

  // A fault makes the check that covers it fail.

  lemma RouteListenerFault(env: Env, op: Operation, st: Store, lb: Id, fault: Fault)
    requires lb in st.loadBalancers && Present(env, op, st, lb, fault) && (fault.BadListener? || fault.TwoListeners?)
    ensures FindListener(env, st.listeners, lb).Conflict?
  {
    match fault {
      case BadListener(l) => assert !ListenerManaged(env, lb, st.listeners[l]);
      case TwoListeners(l, l2) => assert {l, l2} <= ListenersOf(st.listeners, lb);
    }
  }

  lemma RoutePolicyFault(env: Env, op: Operation, st: Store, lb: Id, fault: Fault, l: Id)
    requires lb in st.loadBalancers && Present(env, op, st, lb, fault) && ClaimOf(env, op).byRoute && "" !in st.listeners
    requires (fault.BadPolicy? || fault.BadRule?) && fault.listener == l
    ensures !PolicyTreeOk(env, st.policies, st.rules, l)
  {
    match fault {
      case BadPolicy(_, p) => assert !PolicyOk(env, l, st.policies[p]);
      case BadRule(_, p, r) => assert !RuleOk(env, st.rules[r]) && !RulesOk(env, st.rules, p);
    }
  }

  lemma RoutePoolFault(env: Env, op: Operation, st: Store, lb: Id, fault: Fault)
    requires lb in st.loadBalancers && Present(env, op, st, lb, fault) && ClaimOf(env, op).byRoute
    requires !OnListener(fault)
    ensures !PoolTreeOk(env, st.pools, st.members, st.monitors, lb)
  {
    hide MemberText;
    match fault {
      case BadPool(p) => assert !PoolOk(env, lb, st.pools[p]);
      case BadMember(p, x) => assert !MemberOk(env, p, st.members[x]) && !MembersOk(env, st.members, p);
      case BadMonitor(p, x) => assert !MonitorOk(env, p, st.monitors[x]) && !MonitorsOk(env, st.monitors, p);
      case TwoPools(_, _) =>
      case TwoMonitors(p, _, _) => assert !MonitorsOk(env, st.monitors, p);
    }
  }

  /** A route sees the listener the fault is on, or nothing usable. */
  lemma RouteFault(env: Env, op: Operation, st: Store, lb: Id, fault: Fault, requirements: Option<RouteSpec>)
    requires FindLoadBalancer(env, st.loadBalancers) == Found(lb) && lb in st.loadBalancers && "" !in st.listeners
    requires Present(env, op, st, lb, fault) && ClaimOf(env, op).byRoute
    ensures var view := ViewGateway(env, st, requirements);
            !view.GatewayAbsent? && (view.GatewayReady? ==> !TreeOk(env, st, view.site))
  {
    hide FindLoadBalancer, FindListener, PoolTreeOk, PolicyTreeOk, FaultyListener, FaultyPolicy, FaultyRule, FaultyPool,
         FaultyMember, FaultyMonitor;
    if fault.BadListener? || fault.TwoListeners? {
      RouteListenerFault(env, op, st, lb, fault);
    } else if OnListener(fault) {
      RoutePolicyFault(env, op, st, lb, fault, fault.listener);
    } else {
      RoutePoolFault(env, op, st, lb, fault);
    }
  }

  lemma GatewayTreeFault(env: Env, op: Operation, st: Store, lb: Id, fault: Fault)
    requires lb in st.loadBalancers && Present(env, op, st, lb, fault) && !ClaimOf(env, op).byRoute
    requires !fault.BadFloatingIP? && !fault.TwoListeners?
    ensures !GatewayTreeOk(env, st, lb)
  {
    match fault {
      case BadListener(l) => assert !ListenerSubtreeOwned(env, st, lb, l);
      case BadPolicy(l, p) =>
        assert !PolicyOwned(env, l, st.policies[p]);
        assert !ListenerSubtreeOwned(env, st, lb, l);
      case BadRule(l, p, r) =>
        assert !RuleOwned(env, st.rules[r]) && !RulesOwned(env, st.rules, p);
        assert !ListenerSubtreeOwned(env, st, lb, l);
      case BadPool(p) => assert !PoolOwned(env, lb, st.pools[p]);
      case BadMember(p, x) =>
        assert !MemberOwned(env, p, st.members[x]);
        assert !PoolSubtreeOwned(env, st.members, st.monitors, p);
      case BadMonitor(p, x) =>
        assert !MonitorOwned(env, p, st.monitors[x]);
        assert !PoolSubtreeOwned(env, st.members, st.monitors, p);
    }
  }

  lemma FloatingIPFault(env: Env, op: Operation, st: Store, lb: Id, fault: Fault, network: Id)
    requires lb in st.loadBalancers && Present(env, op, st, lb, fault) && fault.BadFloatingIP?
    ensures var port := st.loadBalancers[lb].vipPort;
            (op.DeleteGatewayOp? ==> !FloatingIPsOwned(env, st.floatingIPs, port)) &&
            (op.EnsureGatewayOp? ==> FloatingIPStateOf(env, st.floatingIPs, port, network) == Unusable)
  {
    var port := st.loadBalancers[lb].vipPort;
    var f := st.floatingIPs[fault.floatingIP];
    assert !FloatingIPTrusted(env, port, f) || !FloatingIPOwned(env, f);
    assert op.EnsureGatewayOp? ==> !FloatingIPsTrusted(env, st.floatingIPs, port);
  }

  /** All or nothing: one foreign, misplaced or surplus resource anywhere in the tree
      an operation would work on, and the call writes nothing and does not report
      Ready. */
  lemma FaultWritesNothing(env: Env, op: Operation, st: Store, lb: Id, fault: Fault)
    requires FindLoadBalancer(env, st.loadBalancers) == Found(lb) && lb in st.loadBalancers && "" !in st.listeners
    requires Present(env, op, st, lb, fault)
    ensures Perform(env, op, st).store == st && Perform(env, op, st).outcome != Ready
  {
    hide FindLoadBalancer, FindListener, FloatingIPStateOf, GatewayTreeOk, FloatingIPsOwned, ViewGateway, TreeOk, GraphOf,
         EnsurePlan, DeletionPlan, DesiredFor, FullPlan, EnsureGatewayAdmin, Blank, Execute, Remove, Present, DeleteStep,
         RepairAdminState, NewLoadBalancer;
    match op {
      case EnsureRouteOp(spec, _) => RouteFault(env, op, st, lb, fault, Some(spec));
      case DeleteRouteOp => RouteFault(env, op, st, lb, fault, None);
      case DeleteGatewayOp =>
        if fault.BadFloatingIP? {
          FloatingIPFault(env, op, st, lb, fault, "");
        } else {
          DeletionIgnoresTwins(env, st, lb, fault);
          GatewayTreeFault(env, op, st, lb, fault);
        }
      case EnsureGatewayOp(spec, _) =>
        if fault.BadFloatingIP? {
          FloatingIPFault(env, op, st, lb, fault, spec.externalNetwork);
        } else if fault.TwoListeners? {
          RouteListenerFault(env, op, st, lb, fault);
        } else {
          GatewayTreeFault(env, op, st, lb, fault);
        }
    }
  }

  lemma DeletionIgnoresTwins(env: Env, st: Store, lb: Id, fault: Fault)
    requires lb in st.loadBalancers && Present(env, DeleteGatewayOp, st, lb, fault)
    ensures !fault.TwoListeners? && !fault.TwoPools? && !fault.TwoMonitors?
  {
  }

  /** The load balancer itself: several listed ones, or one of another project or
      with an incomplete identity, stop all four operations. */
  lemma LoadBalancerFaultWritesNothing(env: Env, op: Operation, st: Store, lb: Id, other: Id)
    requires lb in ListedLoadBalancers(env.own, st.loadBalancers) && other in ListedLoadBalancers(env.own, st.loadBalancers)
    requires lb != other || st.loadBalancers[lb].project != env.project ||
             !env.own.exactGateway(st.loadBalancers[lb].tags, LoadBalancerRole)
    ensures Perform(env, op, st).store == st && Perform(env, op, st).outcome == Failed
  {
    var listed := ListedLoadBalancers(env.own, st.loadBalancers);
    assert lb != other ==> listed != {lb} && listed != {other};
    assert FindLoadBalancer(env, st.loadBalancers) == Conflict;
    hide FindLoadBalancer, DesiredFor, Blank, FindListener;
  }
}
