/** Every justified mutation keeps the tree valid and brings the store strictly
    closer to the desired route. */
module RouteProgress {
  import opened Ownership
  import opened Octavia
  import opened RouteModel
  import opened RouteTree
  import opened RoutePlan
  import opened RouteSteps
  import opened PolicyViews

  // ----- distance of the policies from the desired route -----

  function FindPolicy(wanted: seq<DesiredPolicy>, role: Role): (r: Option<DesiredPolicy>)
    ensures r.Some? ==> r.value in wanted && r.value.role == role
    ensures r.None? ==> forall w :: w in wanted ==> w.role != role
  {
    if wanted == [] then None
    else if wanted[0].role == role then Some(wanted[0])
    else FindPolicy(wanted[1..], role)
  }

  function FindRule(wanted: seq<DesiredRule>, role: Role): (r: Option<DesiredRule>)
    ensures r.Some? ==> r.value in wanted && r.value.role == role
    ensures r.None? ==> forall w :: w in wanted ==> w.role != role
  {
    if wanted == [] then None
    else if wanted[0].role == role then Some(wanted[0])
    else FindRule(wanted[1..], role)
  }

  /** The policy a route wants in a role, and the rule it wants beneath it. */
  function WantedPolicy(d: Desired, role: Role): Option<DesiredPolicy>
  {
    FindPolicy(d.policies, role)
  }

  function WantedRule(d: Desired, w: DesiredPolicy, role: Role): Option<DesiredRule>
  {
    FindRule(RulesFor(w, d.spec.hostname), role)
  }

  function RuleCost(w: Option<DesiredRule>, v: RuleView): nat
  {
    if v.NoRule? then (if w.Some? then 1 else 0)
    else if w.Some? && RuleSettled(w.value, v.rule) then 0
    else 1
  }

  function PolicyCost(d: Desired, role: Role, v: PolicyView, pool: Id): nat
  {
    var w := WantedPolicy(d, role);
    if v.NoPolicy? then (if w.Some? then 1 + |RulesFor(w.value, d.spec.hostname)| else 0)
    else if w.None? then 1 + RuleCost(None, v.path) + RuleCost(None, v.host)
    else
      (if PolicySettled(w.value, v.policy, pool) then 0 else 1) +
      RuleCost(WantedRule(d, w.value, RulePath), v.path) + RuleCost(WantedRule(d, w.value, RuleHost), v.host)
  }

  function Lit(v: PolicyView): nat
  {
    if v.HasPolicy? && v.policy.up then 1 else 0
  }

  function Unlit(v: PolicyView): nat
  {
    if v.HasPolicy? && !v.policy.up then 1 else 0
  }

  /** Mutations still needed in the policies of both roles, then switching: all
      policies off while there is a difference, all on when there is none. */
  function PolicyDistance(d: Desired, exact: PolicyView, prefix: PolicyView, pool: Id): nat
  {
    var cost := PolicyCost(d, PolicyExact, exact, pool) + PolicyCost(d, PolicyPrefix, prefix, pool);
    3 * cost + if cost > 0 then Lit(exact) + Lit(prefix) else Unlit(exact) + Unlit(prefix)
  }

  ghost function View(env: Env, st: Store, site: Site, role: Role): PolicyView
  {
    ViewPolicy(env.own, st.policies, st.rules, site.listener, role)
  }

  ghost function PoolId(st: Store, site: Site): Id
  {
    var p := PoolAt(st.pools, site.loadBalancer);
    if p.Some? then p.value else ""
  }

  ghost function PolicyDiff(env: Env, d: Desired, st: Store, site: Site): nat
  {
    PolicyCost(d, PolicyExact, View(env, st, site, PolicyExact), PoolId(st, site)) +
    PolicyCost(d, PolicyPrefix, View(env, st, site, PolicyPrefix), PoolId(st, site))
  }

  ghost function NonPolicyDiff(env: Env, d: Desired, st: Store, site: Site): nat
  {
    NonPolicyCost(env, d, st.pools, st.members, st.monitors, site.loadBalancer)
  }

  /** An upper bound on the mutations that remain. A missing pool dominates
      everything its creation can add. */
  ghost function Measure(env: Env, d: Desired, st: Store, site: Site): nat
  {
    var policy := PolicyDistance(d, View(env, st, site, PolicyExact), View(env, st, site, PolicyPrefix), PoolId(st, site));
    if PoolAt(st.pools, site.loadBalancer).None? then |ByKey(env.net, d.members)| + 23 + policy
    else policy + NonPolicyDiff(env, d, st, site)
  }

  // ----- justified mutations -----

  predicate IsPolicyRole(role: Role)
  {
    role == PolicyExact || role == PolicyPrefix
  }

  predicate IsRuleRole(role: Role)
  {
    role == RulePath || role == RuleHost
  }

  function RuleIn(v: PolicyView, role: Role): RuleView
    requires v.HasPolicy?
  {
    if role == RulePath then v.path else v.host
  }

  /** No policy of the listener is enabled. */
  ghost predicate Dark(st: Store, listener: Id)
  {
    forall p :: p in PoliciesOf(st.policies, listener) ==> !st.policies[p].up
  }

  ghost predicate JustifiedPoolStep(env: Env, d: Desired, st: Store, site: Site, m: Mutation)
  {
    var pool := PoolAt(st.pools, site.loadBalancer);
    match m
    case CreatePool => pool.None?
    case UpdatePool(p) => pool == Some(p) && !PoolSettled(st.pools[p])
    case DeleteMember(x, p) => pool == Some(p) && x in StaleMembers(env, d, st.members, p)
    case UpdateMember(x, p) => pool == Some(p) && x in DownMembers(env, d, st.members, p)
    case CreateMember(p, e) =>
      pool == Some(p) && e in d.members && StaleMembers(env, d, st.members, p) == {} &&
      KeyOf(env.net, e) in MissingKeys(env, d, st.members, p)
    case CreateMonitor(p) => pool == Some(p) && MonitorAt(st.monitors, p).None?
    case UpdateMonitor(x, p) =>
      pool == Some(p) && MonitorAt(st.monitors, p) == Some(x) && !MonitorSettled(d, st.monitors[x])
    case _ => false
  }

  /** Edits of policies and rules, each naming the role it acts on. */
  ghost predicate JustifiedEdit(env: Env, d: Desired, st: Store, site: Site, m: Mutation, role: Role)
  {
    var v := View(env, st, site, role);
    var w := WantedPolicy(d, role);
    IsPolicyRole(role) &&
    match m
    case DeleteRule(r, p) =>
      v.HasPolicy? && v.id == p &&
      exists rr :: IsRuleRole(rr) && RuleIn(v, rr).HasRule? && RuleIn(v, rr).id == r &&
        (w.None? || WantedRule(d, w.value, rr).None?)
    case DeletePolicy(p) => v.HasPolicy? && v.id == p && w.None? && v.path.NoRule? && v.host.NoRule?
    case CreatePolicy(q, wp) => v.NoPolicy? && w == Some(wp) && PoolAt(st.pools, site.loadBalancer) == Some(q)
    case UpdatePolicy(p, q, wp) =>
      v.HasPolicy? && v.id == p && w == Some(wp) && PoolAt(st.pools, site.loadBalancer) == Some(q) &&
      !PolicySettled(wp, v.policy, q)
    case CreateRule(p, wr) =>
      v.HasPolicy? && v.id == p && w.Some? && IsRuleRole(wr.role) && WantedRule(d, w.value, wr.role) == Some(wr) &&
      RuleIn(v, wr.role).NoRule?
    case UpdateRule(r, p, wr) =>
      v.HasPolicy? && v.id == p && w.Some? && IsRuleRole(wr.role) && WantedRule(d, w.value, wr.role) == Some(wr) &&
      RuleIn(v, wr.role).HasRule? && RuleIn(v, wr.role).id == r && !RuleSettled(wr, RuleIn(v, wr.role).rule)
    case _ => false
  }

  ghost predicate JustifiedSwitch(env: Env, st: Store, site: Site, p: Id, role: Role, up: bool)
  {
    var v := View(env, st, site, role);
    IsPolicyRole(role) && v.HasPolicy? && v.id == p && v.policy.up == up
  }

  /** The conditions under which the ensure plan executes a mutation. */
  ghost predicate Justified(env: Env, d: Desired, st: Store, site: Site, m: Mutation)
  {
    match m
    case DisablePolicy(p) =>
      PolicyDiff(env, d, st, site) > 0 && exists role :: JustifiedSwitch(env, st, site, p, role, true)
    case EnablePolicy(p) =>
      PolicyDiff(env, d, st, site) == 0 && NonPolicyDiff(env, d, st, site) == 0 &&
      exists role :: JustifiedSwitch(env, st, site, p, role, false)
    case _ =>
      (JustifiedPoolStep(env, d, st, site, m) && (PolicyDiff(env, d, st, site) > 0 ==> Dark(st, site.listener))) ||
      (Dark(st, site.listener) && NonPolicyDiff(env, d, st, site) == 0 &&
       exists role :: JustifiedEdit(env, d, st, site, m, role))
  }

  // ----- progress outside the policies -----

  lemma TheOnlyPool(env: Env, st: Store, site: Site, p: Id)
    requires TreeOk(env, st, site) && p in PoolsOf(st.pools, site.loadBalancer)
    ensures PoolAt(st.pools, site.loadBalancer) == Some(p)
    ensures PoolsOf(st.pools, site.loadBalancer) == {p}
  {
  }

  /** The step left the pool in place and removed one difference. */
  ghost predicate OneCloser(env: Env, d: Desired, st: Store, st': Store, site: Site)
  {
    st' == st.(pools := st'.pools, members := st'.members, monitors := st'.monitors) &&
    TreeOk(env, st', site) && PoolAt(st'.pools, site.loadBalancer) == PoolAt(st.pools, site.loadBalancer) &&
    NonPolicyDiff(env, d, st', site) == NonPolicyDiff(env, d, st, site) - 1
  }

  lemma WithMembers(env: Env, d: Desired, st: Store, site: Site, p: Id, members': Members)
    requires TreeOk(env, st, site) && PoolAt(st.pools, site.loadBalancer) == Some(p)
    requires MembersOk(env, members', p) && MemberCost(env, d, members', p) == MemberCost(env, d, st.members, p) - 1
    ensures OneCloser(env, d, st, st.(members := members'), site)
  {
    hide PolicyTreeOk, MembersOk, MonitorsOk, MemberCost;
    TheOnlyPool(env, st, site, p);
  }

  lemma WithMonitors(env: Env, d: Desired, st: Store, site: Site, p: Id, monitors': Monitors)
    requires TreeOk(env, st, site) && PoolAt(st.pools, site.loadBalancer) == Some(p)
    requires MonitorsOk(env, monitors', p) && MonitorCost(d, monitors', p) == MonitorCost(d, st.monitors, p) - 1
    ensures OneCloser(env, d, st, st.(monitors := monitors'), site)
  {
    hide PolicyTreeOk, MembersOk, MonitorsOk, MemberCost, MonitorCost;
    TheOnlyPool(env, st, site, p);
  }

  lemma WithPool(env: Env, d: Desired, st: Store, site: Site, p: Id)
    requires TreeOk(env, st, site) && PoolAt(st.pools, site.loadBalancer) == Some(p) && !PoolSettled(st.pools[p])
    ensures OneCloser(env, d, st, st.(pools := st.pools[p := st.pools[p].(lbMethod := RoundRobin, up := true)]), site)
  {
    hide PolicyTreeOk, MembersOk, MonitorsOk, MemberCost, MonitorCost;
    TheOnlyPool(env, st, site, p);
    var st' := st.(pools := st.pools[p := st.pools[p].(lbMethod := RoundRobin, up := true)]);
    assert PoolOk(env, site.loadBalancer, st.pools[p]);
    assert PoolsOf(st'.pools, site.loadBalancer) == {p};
  }

  /** Every justified step on the pool, a member or the monitor removes exactly
      one difference and keeps the tree valid. */
  lemma PoolStep(env: Env, d: Desired, st: Store, site: Site, m: Mutation, id: Id)
    requires LawfulOwner(env.own) && DesiredOk(env.net, d) && TreeOk(env, st, site) && Fresh(st, id)
    requires JustifiedPoolStep(env, d, st, site, m) && !m.CreatePool?
    ensures OneCloser(env, d, st, Execute(env, d, site, st, m, id), site)
  {
    hide LawfulOwner, DesiredOk, OneCloser, MemberCost, StaleMembers, DownMembers, MissingKeys, MembersOk, MonitorsOk,
         MonitorSettled;
    var p := PoolAt(st.pools, site.loadBalancer).value;
    assert MembersOk(env, st.members, p) && MonitorsOk(env, st.monitors, p);
    assert id !in st.members && id !in st.monitors;
    match m {
      case UpdatePool(_) =>
        WithPool(env, d, st, site, p);
      case DeleteMember(x, _) =>
        DeleteMemberStep(env, d, st.members, p, x);
        WithMembers(env, d, st, site, p, st.members - {x});
      case UpdateMember(x, _) =>
        MemberExists(env, d, st.members, p, x);
        UpdateMemberStep(env, d, st.members, p, x);
        WithMembers(env, d, st, site, p, st.members[x := st.members[x].(up := true)]);
      case CreateMember(_, e) =>
        NewMemberOk(env, d, p, e);
        CreateMemberStep(env, d, st.members, p, NewMember(env, d, p, e), id);
        WithMembers(env, d, st, site, p, st.members[id := NewMember(env, d, p, e)]);
      case CreateMonitor(_) =>
        CreateMonitorStep(env, d, st.monitors, p, id);
        WithMonitors(env, d, st, site, p, st.monitors[id := NewMonitor(env, d, p)]);
      case UpdateMonitor(x, _) =>
        UpdateMonitorStep(env, d, st.monitors, p, x);
        WithMonitors(env, d, st, site, p, st.monitors[x := RepairedMonitor(d, st.monitors[x])]);
    }
  }

  lemma MemberExists(env: Env, d: Desired, members: Members, pool: Id, x: Id)
    requires x in DownMembers(env, d, members, pool)
    ensures x in members
  {
  }

  lemma CreateMonitorStep(env: Env, d: Desired, monitors: Monitors, pool: Id, id: Id)
    requires LawfulOwner(env.own) && MonitorAt(monitors, pool).None? && id !in monitors
    ensures var monitors' := monitors[id := NewMonitor(env, d, pool)];
            MonitorsOk(env, monitors', pool) && MonitorCost(d, monitors', pool) == MonitorCost(d, monitors, pool) - 1
  {
    var monitors' := monitors[id := NewMonitor(env, d, pool)];
    assert MonitorsOf(monitors', pool) == {id};
    assert MonitorAt(monitors', pool) == Some(id);
  }

  lemma UpdateMonitorStep(env: Env, d: Desired, monitors: Monitors, pool: Id, x: Id)
    requires MonitorsOk(env, monitors, pool) && MonitorAt(monitors, pool) == Some(x) && !MonitorSettled(d, monitors[x])
    ensures var monitors' := monitors[x := RepairedMonitor(d, monitors[x])];
            MonitorsOk(env, monitors', pool) && MonitorCost(d, monitors', pool) == MonitorCost(d, monitors, pool) - 1
  {
    var monitors' := monitors[x := RepairedMonitor(d, monitors[x])];
    assert MonitorOk(env, pool, monitors[x]);
    assert MonitorsOf(monitors', pool) == MonitorsOf(monitors, pool) == {x};
    assert MonitorAt(monitors', pool) == Some(x);
  }

  /** A pool without members and monitor is missing all of them. */
  lemma EmptyPool(env: Env, d: Desired, members: Members, monitors: Monitors, p: Id)
    requires MembersOf(members, p) == {} && MonitorsOf(monitors, p) == {}
    ensures MembersOk(env, members, p) && MonitorsOk(env, monitors, p)
    ensures MemberCost(env, d, members, p) == |ByKey(env.net, d.members)| && MonitorCost(d, monitors, p) == 1
  {
    hide ByKey;
    assert StaleMembers(env, d, members, p) == {} && DownMembers(env, d, members, p) == {};
    assert MissingKeys(env, d, members, p) == ByKey(env.net, d.members).Keys;
  }

  lemma CreatePoolStep(env: Env, d: Desired, st: Store, site: Site, id: Id)
    requires LawfulOwner(env.own) && TreeOk(env, st, site) && Fresh(st, id)
    requires PoolAt(st.pools, site.loadBalancer).None?
    ensures var st' := Execute(env, d, site, st, CreatePool, id);
            TreeOk(env, st', site) && PoolAt(st'.pools, site.loadBalancer) == Some(id) &&
            NonPolicyDiff(env, d, st', site) == |ByKey(env.net, d.members)| + 1
  {
    hide PolicyTreeOk, ByKey, MembersOk, MonitorsOk, MemberCost, MonitorCost;
    var st' := Execute(env, d, site, st, CreatePool, id);
    assert PoolsOf(st'.pools, site.loadBalancer) == {id};
    assert MembersOf(st.members, id) == {} && MonitorsOf(st.monitors, id) == {};
    EmptyPool(env, d, st.members, st.monitors, id);
    assert PoolOk(env, site.loadBalancer, st'.pools[id]);
  }

  // ----- progress in the policies -----

  /** Tags written for a role are recognised under exactly that role. */
  lemma TagsRecognised(own: Owner, role: Role)
    requires LawfulOwner(own)
    ensures IsPolicyRole(role) ==> RolePolicy(own, own.routeTags(role)) == Some(role)
    ensures IsRuleRole(role) ==> RoleRule(own, own.routeTags(role)) == Some(role)
  {
  }

  /** The rules a policy wants are its path rule and, with a hostname, its host rule. */
  lemma RulesWanted(d: Desired, w: DesiredPolicy)
    ensures WantedRule(d, w, RulePath).Some?
    ensures |RulesFor(w, d.spec.hostname)| == 1 + (if WantedRule(d, w, RuleHost).Some? then 1 else 0)
  {
    var rules := RulesFor(w, d.spec.hostname);
    assert FindRule(rules, RulePath) == Some(rules[0]);
    assert FindRule(rules[1..], RuleHost) == if |rules| == 2 then Some(rules[1]) else None;
  }

  /** The view of one role is replaced; the other role's view is not. */
  ghost predicate RoleReplaced(env: Env, st: Store, st': Store, site: Site, role: Role, v: PolicyView)
  {
    View(env, st', site, role) == v &&
    forall other :: other != role ==> View(env, st', site, other) == View(env, st, site, other)
  }

  /** The step only edited policies and rules, kept the tree valid and every
      policy disabled, and removed exactly one difference. */
  ghost predicate OneEditCloser(env: Env, d: Desired, st: Store, st': Store, site: Site)
  {
    st' == st.(policies := st'.policies, rules := st'.rules) && TreeOk(env, st', site) && Dark(st', site.listener) &&
    PolicyDiff(env, d, st', site) == PolicyDiff(env, d, st, site) - 1
  }

  lemma ViewedPolicy(env: Env, st: Store, site: Site, role: Role)
    requires TreeOk(env, st, site) && site.listener != "" && View(env, st, site, role).HasPolicy?
    ensures var v := View(env, st, site, role);
            IsPolicyWith(env.own, st.policies, site.listener, role, v.id) && v == ViewOf(env.own, st.policies, st.rules, v.id) &&
            RulesOk(env, st.rules, v.id)
  {
  }

  /** A change of one rule beneath the viewed policy, from the rule's view to the tree. */
  lemma RuleEdited(env: Env, d: Desired, st: Store, site: Site, role: Role, rr: Role, rules': Rules, r: Id, rv: RuleView)
    requires TreeOk(env, st, site) && site.listener != "" && Dark(st, site.listener)
    requires IsPolicyRole(role) && IsRuleRole(rr) && View(env, st, site, role).HasPolicy?
    requires forall q :: q != r ==> (q in rules' <==> q in st.rules) && (q in st.rules ==> rules'[q] == st.rules[q])
    requires r in st.rules ==> st.rules[r].parent == View(env, st, site, role).id
    requires r in rules' ==> rules'[r].parent == View(env, st, site, role).id
    requires var p := View(env, st, site, role).id;
             RulesOk(env, rules', p) && ViewRule(env.own, rules', p, rr) == rv &&
             (forall other :: other != rr ==> ViewRule(env.own, rules', p, other) == ViewRule(env.own, st.rules, p, other))
    requires var w := WantedPolicy(d, role);
             var wr := if w.Some? then WantedRule(d, w.value, rr) else None;
             RuleCost(wr, rv) == RuleCost(wr, RuleIn(View(env, st, site, role), rr)) - 1
    ensures OneEditCloser(env, d, st, st.(rules := rules'), site)
  {
    hide PoolTreeOk, RulesOk, RuleCost, PolicySettled, FindPolicy, FindRule, RulesFor, ViewRule;
    var st' := st.(rules := rules');
    ViewedPolicy(env, st, site, role);
    var v := View(env, st, site, role);
    forall p | p != v.id ensures SameRules(st.rules, rules', p) {
      assert RulesOf(rules', p) == RulesOf(st.rules, p);
    }
    RulesChanged(env, st.policies, st.rules, rules', site.listener, role, v.id);
    var v' := View(env, st', site, role);
    assert v' == v.(path := if rr == RulePath then rv else v.path, host := if rr == RuleHost then rv else v.host);
    assert PolicyCost(d, role, v', PoolId(st, site)) == PolicyCost(d, role, v, PoolId(st, site)) - 1;
  }

  /** A change of one policy record, from the role's view to the tree. */
  lemma PolicyEdited(env: Env, d: Desired, st: Store, site: Site, role: Role, policies': Policies, v': PolicyView)
    requires TreeOk(env, st, site) && IsPolicyRole(role)
    requires PolicyTreeOk(env, policies', st.rules, site.listener)
    requires forall p :: p in PoliciesOf(policies', site.listener) ==> !policies'[p].up
    requires RoleReplaced(env, st, st.(policies := policies'), site, role, v')
    requires PolicyCost(d, role, v', PoolId(st, site)) ==
             PolicyCost(d, role, View(env, st, site, role), PoolId(st, site)) - 1
    ensures OneEditCloser(env, d, st, st.(policies := policies'), site)
  {
    hide PoolTreeOk, PolicyTreeOk, PolicyCost, ViewPolicy;
  }

  lemma DeleteRuleStep(env: Env, d: Desired, st: Store, site: Site, role: Role, r: Id, p: Id)
    requires TreeOk(env, st, site) && site.listener != "" && Dark(st, site.listener)
    requires JustifiedEdit(env, d, st, site, DeleteRule(r, p), role)
    ensures OneEditCloser(env, d, st, st.(rules := st.rules - {r}), site)
  {
    hide PoolTreeOk, RolePolicy, RoleRule, RulesFor;
    ViewedPolicy(env, st, site, role);
    var v := View(env, st, site, role);
    var w := WantedPolicy(d, role);
    var rr :| IsRuleRole(rr) && RuleIn(v, rr).HasRule? && RuleIn(v, rr).id == r &&
              (w.None? || WantedRule(d, w.value, rr).None?);
    assert IsRuleWith(env.own, st.rules, p, rr, r);
    RuleRemoved(env, st.rules, p, rr, r);
    RuleEdited(env, d, st, site, role, rr, st.rules - {r}, r, NoRule);
  }

  lemma CreateRuleStep(env: Env, d: Desired, st: Store, site: Site, role: Role, p: Id, wr: DesiredRule, id: Id)
    requires LawfulOwner(env.own) && TreeOk(env, st, site) && site.listener != "" && Dark(st, site.listener) && Fresh(st, id)
    requires JustifiedEdit(env, d, st, site, CreateRule(p, wr), role)
    ensures OneEditCloser(env, d, st, st.(rules := st.rules[id := NewRule(env, p, wr)]), site)
  {
    hide PoolTreeOk, RolePolicy, RoleRule, RulesFor, LawfulOwner;
    ViewedPolicy(env, st, site, role);
    var rule := NewRule(env, p, wr);
    TagsRecognised(env.own, wr.role);
    RuleAdded(env, st.rules, p, wr.role, id, rule);
    RuleEdited(env, d, st, site, role, wr.role, st.rules[id := rule], id, HasRule(id, rule));
  }

  lemma UpdateRuleStep(env: Env, d: Desired, st: Store, site: Site, role: Role, r: Id, p: Id, wr: DesiredRule)
    requires TreeOk(env, st, site) && site.listener != "" && Dark(st, site.listener)
    requires JustifiedEdit(env, d, st, site, UpdateRule(r, p, wr), role)
    ensures r in st.rules && OneEditCloser(env, d, st, st.(rules := st.rules[r := RepairedRule(st.rules[r], wr)]), site)
  {
    hide PoolTreeOk, RolePolicy, RoleRule, RulesFor;
    ViewedPolicy(env, st, site, role);
    assert IsRuleWith(env.own, st.rules, p, wr.role, r);
    var rule := RepairedRule(st.rules[r], wr);
    RuleRewritten(env, st.rules, p, wr.role, r, rule);
    RuleEdited(env, d, st, site, role, wr.role, st.rules[r := rule], r, HasRule(r, rule));
  }

  lemma DeletePolicyStep(env: Env, d: Desired, st: Store, site: Site, role: Role, p: Id)
    requires TreeOk(env, st, site) && site.listener != "" && Dark(st, site.listener)
    requires JustifiedEdit(env, d, st, site, DeletePolicy(p), role)
    ensures OneEditCloser(env, d, st, st.(policies := st.policies - {p}), site)
  {
    hide PoolTreeOk, RolePolicy, RulesFor;
    ViewedPolicy(env, st, site, role);
    PolicyRemoved(env, st.policies, st.rules, site.listener, role, p);
    PolicyEdited(env, d, st, site, role, st.policies - {p}, NoPolicy);
  }

  lemma CreatePolicyStep(env: Env, d: Desired, st: Store, site: Site, role: Role, q: Id, w: DesiredPolicy, id: Id)
    requires LawfulOwner(env.own) && TreeOk(env, st, site) && site.listener != "" && Dark(st, site.listener) && Fresh(st, id)
    requires JustifiedEdit(env, d, st, site, CreatePolicy(q, w), role)
    ensures OneEditCloser(env, d, st, st.(policies := st.policies[id := NewPolicy(env, site.listener, q, w)]), site)
  {
    hide PoolTreeOk, RolePolicy, LawfulOwner;
    var policy := NewPolicy(env, site.listener, q, w);
    TagsRecognised(env.own, role);
    RulesWanted(d, w);
    assert RulesOf(st.rules, id) == {};
    PolicyAdded(env, st.policies, st.rules, site.listener, role, id, policy);
    PolicyEdited(env, d, st, site, role, st.policies[id := policy], HasPolicy(id, policy, NoRule, NoRule));
  }

  lemma UpdatePolicyStep(env: Env, d: Desired, st: Store, site: Site, role: Role, p: Id, q: Id, w: DesiredPolicy)
    requires TreeOk(env, st, site) && site.listener != "" && Dark(st, site.listener)
    requires JustifiedEdit(env, d, st, site, UpdatePolicy(p, q, w), role)
    ensures p in st.policies &&
            OneEditCloser(env, d, st, st.(policies := st.policies[p := RepairedPolicy(st.policies[p], q, w)]), site)
  {
    hide PoolTreeOk, RolePolicy, RulesFor;
    ViewedPolicy(env, st, site, role);
    var policy := RepairedPolicy(st.policies[p], q, w);
    PolicyRewritten(env, st.policies, st.rules, site.listener, role, p, policy);
    PolicyEdited(env, d, st, site, role, st.policies[p := policy], View(env, st, site, role).(policy := policy));
  }

  /** Switching one policy on or off changes nothing but that switch. */
  lemma SwitchStep(env: Env, d: Desired, st: Store, site: Site, role: Role, p: Id, up: bool)
    requires TreeOk(env, st, site) && site.listener != "" && JustifiedSwitch(env, st, site, p, role, !up)
    ensures p in st.policies
    ensures var st' := st.(policies := st.policies[p := st.policies[p].(up := up)]);
            TreeOk(env, st', site) &&
            RoleReplaced(env, st, st', site, role, View(env, st, site, role).(policy := st.policies[p].(up := up)))
  {
    hide PoolTreeOk, RolePolicy;
    ViewedPolicy(env, st, site, role);
    PolicyRewritten(env, st.policies, st.rules, site.listener, role, p, st.policies[p].(up := up));
  }

  lemma CostBound(d: Desired, role: Role, v: PolicyView, pool: Id)
    ensures PolicyCost(d, role, v, pool) <= 3
  {
  }

  /** In a dark listener no viewed policy is lit. */
  lemma DarkViews(env: Env, st: Store, site: Site, role: Role)
    requires TreeOk(env, st, site) && site.listener != "" && Dark(st, site.listener)
    ensures Lit(View(env, st, site, role)) == 0
  {
    if View(env, st, site, role).HasPolicy? {
      ViewedPolicy(env, st, site, role);
    }
  }

  lemma EditStep(env: Env, d: Desired, st: Store, site: Site, m: Mutation, role: Role, id: Id)
    requires LawfulOwner(env.own) && TreeOk(env, st, site) && site.listener != "" && Fresh(st, id)
    requires Dark(st, site.listener) && JustifiedEdit(env, d, st, site, m, role)
    ensures OneEditCloser(env, d, st, Execute(env, d, site, st, m, id), site)
  {
    hide TreeOk, Fresh, LawfulOwner, OneEditCloser, Dark, View, WantedPolicy, WantedRule;
    match m {
      case DeleteRule(r, p) => DeleteRuleStep(env, d, st, site, role, r, p);
      case DeletePolicy(p) => DeletePolicyStep(env, d, st, site, role, p);
      case CreatePolicy(q, w) => CreatePolicyStep(env, d, st, site, role, q, w, id);
      case UpdatePolicy(p, q, w) => UpdatePolicyStep(env, d, st, site, role, p, q, w);
      case CreateRule(p, wr) => CreateRuleStep(env, d, st, site, role, p, wr, id);
      case UpdateRule(r, p, wr) => UpdateRuleStep(env, d, st, site, role, r, p, wr);
    }
  }

  lemma SwitchDecreases(env: Env, d: Desired, st: Store, site: Site, role: Role, p: Id, up: bool)
    requires TreeOk(env, st, site) && site.listener != "" && JustifiedSwitch(env, st, site, p, role, !up)
    requires up <==> PolicyDiff(env, d, st, site) == 0
    ensures p in st.policies
    ensures var st' := st.(policies := st.policies[p := st.policies[p].(up := up)]);
            TreeOk(env, st', site) && Measure(env, d, st', site) < Measure(env, d, st, site)
  {
    hide TreeOk, RulesFor, FindPolicy, FindRule, RuleCost, NonPolicyCost;
    SwitchStep(env, d, st, site, role, p, up);
    ViewedPolicy(env, st, site, role);
    var st' := st.(policies := st.policies[p := st.policies[p].(up := up)]);
    assert PolicyCost(d, role, View(env, st', site, role), PoolId(st, site)) ==
           PolicyCost(d, role, View(env, st, site, role), PoolId(st, site));
  }

  lemma EditDecreases(env: Env, d: Desired, st: Store, st': Store, site: Site)
    requires TreeOk(env, st, site) && site.listener != "" && Dark(st, site.listener)
    requires OneEditCloser(env, d, st, st', site)
    ensures Measure(env, d, st', site) < Measure(env, d, st, site)
  {
    hide TreeOk, NonPolicyCost, PolicyCost, Dark, ViewPolicy;
    DarkViews(env, st, site, PolicyExact);
    DarkViews(env, st, site, PolicyPrefix);
  }

  lemma CreatePoolDecreases(env: Env, d: Desired, st: Store, site: Site, id: Id)
    requires LawfulOwner(env.own) && TreeOk(env, st, site) && Fresh(st, id)
    requires PoolAt(st.pools, site.loadBalancer).None?
    ensures var st' := Execute(env, d, site, st, CreatePool, id);
            TreeOk(env, st', site) && Measure(env, d, st', site) < Measure(env, d, st, site)
  {
    hide TreeOk, LawfulOwner, Fresh, NonPolicyCost, PolicyCost, ViewPolicy;
    var st' := Execute(env, d, site, st, CreatePool, id);
    CreatePoolStep(env, d, st, site, id);
    CostBound(d, PolicyExact, View(env, st', site, PolicyExact), id);
    CostBound(d, PolicyPrefix, View(env, st', site, PolicyPrefix), id);
  }

  lemma PoolStepDecreases(env: Env, d: Desired, st: Store, st': Store, site: Site)
    requires PoolAt(st.pools, site.loadBalancer).Some? && OneCloser(env, d, st, st', site)
    ensures Measure(env, d, st', site) < Measure(env, d, st, site)
  {
    hide TreeOk, NonPolicyCost, PolicyCost, ViewPolicy;
  }

  /** Every justified mutation leaves a valid tree and a smaller distance. */
  lemma StepDecreases(env: Env, d: Desired, st: Store, site: Site, m: Mutation, id: Id)
    requires LawfulOwner(env.own) && DesiredOk(env.net, d)
    requires TreeOk(env, st, site) && site.listener != "" && Fresh(st, id) && Justified(env, d, st, site, m)
    ensures var st' := Execute(env, d, site, st, m, id);
            TreeOk(env, st', site) && Measure(env, d, st', site) < Measure(env, d, st, site)
  {
    hide TreeOk, Fresh, LawfulOwner, DesiredOk, JustifiedPoolStep, JustifiedEdit, JustifiedSwitch, Measure, Dark;
    var st' := Execute(env, d, site, st, m, id);
    if m.DisablePolicy? || m.EnablePolicy? {
      var role :| JustifiedSwitch(env, st, site, m.id, role, m.DisablePolicy?);
      SwitchDecreases(env, d, st, site, role, m.id, m.EnablePolicy?);
    } else if role :| JustifiedEdit(env, d, st, site, m, role) && Dark(st, site.listener) {
      EditStep(env, d, st, site, m, role, id);
      EditDecreases(env, d, st, st', site);
    } else if m.CreatePool? {
      PoolIsMissing(env, d, st, site);
      CreatePoolDecreases(env, d, st, site, id);
    } else {
      PoolStep(env, d, st, site, m, id);
      PoolStepKeepsPool(env, d, st, site, m);
      PoolStepDecreases(env, d, st, st', site);
    }
  }

  lemma PoolIsMissing(env: Env, d: Desired, st: Store, site: Site)
    requires JustifiedPoolStep(env, d, st, site, CreatePool)
    ensures PoolAt(st.pools, site.loadBalancer).None?
  {
  }

  lemma PoolStepKeepsPool(env: Env, d: Desired, st: Store, site: Site, m: Mutation)
    requires JustifiedPoolStep(env, d, st, site, m) && !m.CreatePool?
    ensures PoolAt(st.pools, site.loadBalancer).Some?
  {
  }
}
