/** Which requests the enabled policies route, over whole runs of ensure and
    delete calls with changing specifications. */
module RouteTraffic {
  import opened Ownership
  import opened Octavia
  import opened RouteModel
  import opened RouteTree
  import opened RoutePlan
  import opened RouteSteps
  import opened PolicyViews
  import opened RouteProgress
  import opened RouteHead
  import opened RouteConvergence
  import opened RouteDeletion

  // ----- what Octavia does with a request -----

  datatype Request = Request(host: string, path: string)

  predicate Absolute(request: Request)
  {
    request.path != "" && request.path[0] == '/'
  }

  predicate RuleHolds(rule: Rule, request: Request)
  {
    match rule.ruleType
    case PathType => Compares(rule.compareType, rule.value, request.path)
    case HostNameType => Compares(rule.compareType, rule.value, request.host)
    case OtherRuleType(_) => false
  }

  /** A policy matches when all its enabled rules do; an inverted rule matches
      when its comparison fails. */
  ghost predicate PolicyMatches(rules: Rules, p: Id, request: Request)
  {
    forall r :: r in RulesOf(rules, p) && rules[r].up ==> RuleHolds(rules[r], request) != rules[r].invert
  }

  ghost predicate Routes(st: Store, listener: Id, p: Id, request: Request)
  {
    p in PoliciesOf(st.policies, listener) && st.policies[p].up && PolicyMatches(st.rules, p, request)
  }

  /** What the Gateway API says about the same request. */
  predicate RouteMatches(spec: RouteSpec, request: Request)
    requires Absolute(request)
  {
    (spec.hostname == "" || request.host == spec.hostname) &&
    GatewayAPIPathMatch(spec.pathType, spec.pathValue, request.path)
  }

  // ----- intact policies -----

  ghost predicate IsWanted(d: Desired, w: DesiredPolicy, rule: Rule)
  {
    exists wr :: wr in RulesFor(w, d.spec.hostname) && RuleSettled(wr, rule)
  }

  ghost predicate IsPresent(rules: Rules, p: Id, wr: DesiredRule)
  {
    exists r :: r in RulesOf(rules, p) && RuleSettled(wr, rules[r])
  }

  /** The rules beneath a policy are exactly those it wants. */
  ghost predicate RulesImage(d: Desired, w: DesiredPolicy, rules: Rules, p: Id)
  {
    (forall r :: r in RulesOf(rules, p) ==> IsWanted(d, w, rules[r])) &&
    (forall wr :: wr in RulesFor(w, d.spec.hostname) ==> IsPresent(rules, p, wr))
  }

  /** A policy with its rules is completely what the route wants in one role, and
      redirects to an existing pool of the Gateway. */
  ghost predicate ImageOf(d: Desired, w: DesiredPolicy, st: Store, site: Site, p: Id)
  {
    w in d.policies && p in st.policies && PolicySettled(w, st.policies[p], st.policies[p].redirectPool) &&
    st.policies[p].redirectPool in PoolsOf(st.pools, site.loadBalancer) && RulesImage(d, w, st.rules, p)
  }

  ghost predicate Image(d: Desired, st: Store, site: Site, p: Id)
  {
    exists w :: ImageOf(d, w, st, site, p)
  }

  /** Every enabled policy is an intact image of some route in the history. */
  ghost predicate Safe(history: set<Desired>, st: Store, site: Site)
  {
    forall p :: p in PoliciesOf(st.policies, site.listener) && st.policies[p].up ==>
      SomeImage(history, st, site, p)
  }

  ghost predicate SomeImage(history: set<Desired>, st: Store, site: Site, p: Id)
  {
    exists d :: d in history && Image(d, st, site, p)
  }

  /** No enabled policy, and no rule of one, is edited or removed; at most it is
      switched off. */
  ghost predicate LitUntouched(st: Store, st': Store, listener: Id)
  {
    forall p :: p in PoliciesOf(st.policies, listener) && st.policies[p].up ==> Untouched(st, st', p)
  }

  ghost predicate Untouched(st: Store, st': Store, p: Id)
    requires p in st.policies
  {
    p in st'.policies && st'.policies[p] == st.policies[p].(up := st'.policies[p].up) && SameRules(st.rules, st'.rules, p)
  }

  /** Whatever a step enables was there before, is otherwise unchanged, and is an
      intact image of a route being ensured. */
  ghost predicate EnablesImages(ensured: set<Desired>, st: Store, st': Store, site: Site)
  {
    forall p :: p in PoliciesOf(st'.policies, site.listener) && st'.policies[p].up ==>
      p in PoliciesOf(st.policies, site.listener) && Untouched(st, st', p) && (!st.policies[p].up ==> SomeImage(ensured, st', site, p))
  }

  ghost predicate PoolsStay(st: Store, st': Store, site: Site)
  {
    (forall p :: p in PoolsOf(st.pools, site.loadBalancer) ==> p in PoolsOf(st'.pools, site.loadBalancer)) ||
    Dark(st', site.listener)
  }

  ghost predicate SafeStep(ensured: set<Desired>, st: Store, st': Store, site: Site)
  {
    LitUntouched(st, st', site.listener) && EnablesImages(ensured, st, st', site) && PoolsStay(st, st', site)
  }

  lemma SameRulesImage(d: Desired, w: DesiredPolicy, rules: Rules, rules': Rules, p: Id)
    requires RulesImage(d, w, rules, p) && SameRules(rules, rules', p)
    ensures RulesImage(d, w, rules', p)
  {
    hide RuleSettled, RulesFor;
    forall wr | wr in RulesFor(w, d.spec.hostname) ensures IsPresent(rules', p, wr) {
      var r :| r in RulesOf(rules, p) && RuleSettled(wr, rules[r]);
      assert r in RulesOf(rules', p) && rules'[r] == rules[r];
    }
  }

  lemma ImageKept(d: Desired, st: Store, st': Store, site: Site, p: Id)
    requires p in st.policies && Image(d, st, site, p) && Untouched(st, st', p)
    requires forall q :: q in PoolsOf(st.pools, site.loadBalancer) ==> q in PoolsOf(st'.pools, site.loadBalancer)
    ensures Image(d, st', site, p)
  {
    hide RulesImage, SameRules;
    var w :| ImageOf(d, w, st, site, p);
    SameRulesImage(d, w, st.rules, st'.rules, p);
    assert ImageOf(d, w, st', site, p);
  }

  /** Safe steps keep every enabled policy intact. */
  lemma SafeStepKeepsSafe(history: set<Desired>, ensured: set<Desired>, st: Store, st': Store, site: Site)
    requires Safe(history, st, site) && SafeStep(ensured, st, st', site)
    ensures Safe(history + ensured, st', site)
  {
    hide Image, Untouched;
    forall p | p in PoliciesOf(st'.policies, site.listener) && st'.policies[p].up
      ensures SomeImage(history + ensured, st', site, p)
    {
      if st.policies[p].up {
        var e :| e in history && Image(e, st, site, p);
        ImageKept(e, st, st', site, p);
        assert e in history + ensured;
      } else {
        var e :| e in ensured && Image(e, st', site, p);
        assert e in history + ensured;
      }
    }
  }

  // ----- ensure steps -----

  lemma CostlessRule(env: Env, d: Desired, w: DesiredPolicy, rules: Rules, p: Id, role: Role)
    requires RuleCost(WantedRule(d, w, role), ViewRule(env.own, rules, p, role)) == 0
    ensures ViewRule(env.own, rules, p, role).HasRule? ==> IsWanted(d, w, ViewRule(env.own, rules, p, role).rule)
    ensures forall wr :: wr in RulesFor(w, d.spec.hostname) && wr.role == role ==> IsPresent(rules, p, wr)
  {
    hide RoleRule, RulesFor, FindRule, RuleSettled;
    var v := ViewRule(env.own, rules, p, role);
    if v.HasRule? {
      var wr := WantedRule(d, w, role).value;
      assert wr in RulesFor(w, d.spec.hostname);
      assert v.id in RulesOf(rules, p);
    }
    forall wr | wr in RulesFor(w, d.spec.hostname) && wr.role == role ensures IsPresent(rules, p, wr) {
      WantedRuleIs(d, w, wr);
    }
  }

  lemma CostlessRules(env: Env, d: Desired, w: DesiredPolicy, rules: Rules, p: Id)
    requires RulesOk(env, rules, p)
    requires RuleCost(WantedRule(d, w, RulePath), ViewRule(env.own, rules, p, RulePath)) == 0
    requires RuleCost(WantedRule(d, w, RuleHost), ViewRule(env.own, rules, p, RuleHost)) == 0
    ensures RulesImage(d, w, rules, p)
  {
    hide RoleRule, RulesFor, RulesOk, FindRule, ViewRule, RuleCost, IsWanted, IsPresent;
    CostlessRule(env, d, w, rules, p, RulePath);
    CostlessRule(env, d, w, rules, p, RuleHost);
    forall r | r in RulesOf(rules, p) ensures IsWanted(d, w, rules[r]) {
      var role := RuleHasRole(env, rules, p, r);
    }
    forall wr | wr in RulesFor(w, d.spec.hostname) ensures IsPresent(rules, p, wr) {
      WantedRuleIs(d, w, wr);
    }
  }

  lemma CostlessPolicy(env: Env, d: Desired, st: Store, site: Site, role: Role)
    requires TreeOk(env, st, site) && site.listener != "" && View(env, st, site, role).HasPolicy?
    requires PoolAt(st.pools, site.loadBalancer).Some?
    requires PolicyCost(d, role, View(env, st, site, role), PoolId(st, site)) == 0
    ensures Image(d, st, site, View(env, st, site, role).id)
  {
    hide TreeOk, RolePolicy, RulesOk, RulesFor, FindPolicy, FindRule, RuleCost, ViewRule, RulesImage;
    ViewedPolicy(env, st, site, role);
    var v := View(env, st, site, role);
    var w := WantedPolicy(d, role).value;
    CostlessRules(env, d, w, st.rules, v.id);
    assert ImageOf(d, w, st, site, v.id);
  }

  lemma SwitchIsSafe(env: Env, d: Desired, st: Store, site: Site, p: Id, up: bool)
    requires TreeOk(env, st, site) && site.listener != "" && p in st.policies && st.policies[p].up != up
    requires up ==> Image(d, st, site, p)
    ensures SafeStep({d}, st, st.(policies := st.policies[p := st.policies[p].(up := up)]), site)
  {
    hide TreeOk, Image;
    var st' := st.(policies := st.policies[p := st.policies[p].(up := up)]);
    if up {
      ImageKept(d, st, st', site, p);
    }
  }

  lemma DarkStepIsSafe(ensured: set<Desired>, st: Store, st': Store, site: Site)
    requires Dark(st, site.listener) && Dark(st', site.listener)
    ensures SafeStep(ensured, st, st', site)
  {
  }

  lemma SamePoliciesIsSafe(ensured: set<Desired>, st: Store, st': Store, site: Site)
    requires st' == st.(pools := st'.pools, members := st'.members, monitors := st'.monitors)
    requires PoolsStay(st, st', site)
    ensures SafeStep(ensured, st, st', site)
  {
    hide PoolsStay, RulesOf;
  }

  lemma PoolsOnlyGrow(env: Env, d: Desired, st: Store, site: Site, m: Mutation, id: Id)
    requires !m.DeletePool? && id !in st.pools
    ensures forall p :: p in PoolsOf(st.pools, site.loadBalancer) ==>
              p in PoolsOf(Execute(env, d, site, st, m, id).pools, site.loadBalancer)
  {
  }

  predicate KeepsPolicies(m: Mutation)
  {
    m.CreatePool? || m.UpdatePool? || m.DeleteMember? || m.UpdateMember? || m.CreateMember? || m.CreateMonitor? ||
    m.UpdateMonitor?
  }

  lemma PoolStepKind(env: Env, d: Desired, st: Store, site: Site, m: Mutation)
    requires JustifiedPoolStep(env, d, st, site, m)
    ensures KeepsPolicies(m)
  {
    hide PoolSettled, StaleMembers, DownMembers, MissingKeys, MonitorSettled;
  }

  lemma PoliciesKept(env: Env, d: Desired, st: Store, site: Site, m: Mutation, id: Id)
    requires KeepsPolicies(m)
    ensures var st' := Execute(env, d, site, st, m, id);
            st' == st.(pools := st'.pools, members := st'.members, monitors := st'.monitors)
  {
  }

  lemma PoolStepKeepsPools(env: Env, d: Desired, st: Store, site: Site, m: Mutation, id: Id)
    requires JustifiedPoolStep(env, d, st, site, m) && Fresh(st, id)
    ensures var st' := Execute(env, d, site, st, m, id);
            st' == st.(pools := st'.pools, members := st'.members, monitors := st'.monitors) && PoolsStay(st, st', site)
  {
    assert id !in st.pools;
    hide JustifiedPoolStep, Execute, PoolsOf, Fresh;
    PoolStepKind(env, d, st, site, m);
    PoliciesKept(env, d, st, site, m, id);
    PoolsOnlyGrow(env, d, st, site, m, id);
  }

  lemma JustifiedIsSafe(env: Env, d: Desired, st: Store, site: Site, m: Mutation, id: Id)
    requires LawfulOwner(env.own) && TreeOk(env, st, site) && site.listener != "" && Fresh(st, id)
    requires Justified(env, d, st, site, m)
    ensures SafeStep({d}, st, Execute(env, d, site, st, m, id), site)
  {
    hide TreeOk, Fresh, LawfulOwner, JustifiedPoolStep, JustifiedEdit, View, PolicyCost, NonPolicyDiff, Dark,
         SafeStep, Image;
    var st' := Execute(env, d, site, st, m, id);
    if m.DisablePolicy? || m.EnablePolicy? {
      var role :| JustifiedSwitch(env, st, site, m.id, role, m.DisablePolicy?);
      ViewedPolicy(env, st, site, role);
      if m.EnablePolicy? {
        PoolThere(env, d, st, site);
        CostlessPolicy(env, d, st, site, role);
      }
      SwitchIsSafe(env, d, st, site, m.id, m.EnablePolicy?);
    } else if role :| JustifiedEdit(env, d, st, site, m, role) && Dark(st, site.listener) {
      EditStep(env, d, st, site, m, role, id);
      DarkStepIsSafe({d}, st, st', site);
    } else {
      PoolStepKeepsPools(env, d, st, site, m, id);
      SamePoliciesIsSafe({d}, st, st', site);
    }
  }

  // ----- delete steps -----

  lemma DeletionIsSafe(env: Env, st: Store, site: Site)
    requires TreeOk(env, st, site) && site.listener != "" && DeletionPlan(GraphOf(env, st, site)) != []
    ensures SafeStep({}, st, Execute(env, NO_ROUTE, site, st, DeletionPlan(GraphOf(env, st, site))[0], ""), site)
  {
    hide PoolTreeOk, PolicyTreeOk, PolicyDeletionPart, PoolPart, DeletionPlan, GraphOf, SafeStep, PolicyLeaf,
         PoliciesSeen, Execute;
    PlanParts(env, st, site);
    var seen := PoliciesSeen(env, st, site.listener);
    if seen != [] {
      PolicyPartLeaf(env, st, site);
      LeafIsSafe(env, st, site, PolicyDeletionPart(seen)[0]);
    } else {
      EmptyParts(seen);
      NothingSeen(env, st, site);
      PoolPartTail(env, NO_ROUTE, st, site, "");
      DarkStepIsSafe({}, st, Execute(env, NO_ROUTE, site, st, PoolPart(env, st, site.loadBalancer)[0], ""), site);
    }
  }

  lemma NothingSeen(env: Env, st: Store, site: Site)
    requires TreeOk(env, st, site) && site.listener != "" && PoliciesSeen(env, st, site.listener) == []
    ensures Dark(st, site.listener)
  {
  }

  lemma LeafIsSafe(env: Env, st: Store, site: Site, m: Mutation)
    requires PolicyLeaf(st, site, m)
    ensures SafeStep({}, st, Execute(env, NO_ROUTE, site, st, m, ""), site)
  {
  }

  // ----- whole runs -----

  /** One moment of a run for one route: nothing happens (or the load balancer is
      pending), a reconciliation of some specification, or a deletion call. */
  datatype Event = Idle | Ensured(desired: Desired, id: Id) | Deleted

  ghost predicate EventStep(env: Env, site: Site, st: Store, event: Event, st': Store)
  {
    match event
    case Idle => st' == st
    case Ensured(d, id) =>
      DesiredOk(env.net, d) && Fresh(st, id) && st' == EnsureStep(env, d, site, st, id)
    case Deleted => st' == DeleteStep(env, site, st)
  }

  ghost predicate IsTrafficRun(env: Env, site: Site, states: seq<Store>, events: seq<Event>)
    decreases |events|
  {
    |states| == |events| + 1 &&
    (events == [] ||
     (EventStep(env, site, states[0], events[0], states[1]) && IsTrafficRun(env, site, states[1..], events[1..])))
  }

  /** The routes ensured by the first events of a run. */
  function EnsuredBy(events: seq<Event>): set<Desired>
  {
    if events == [] then {} else EnsuredIn(events[0]) + EnsuredBy(events[1..])
  }

  function EnsuredIn(event: Event): set<Desired>
  {
    if event.Ensured? then {event.desired} else {}
  }

  lemma EnsureIsSafe(env: Env, d: Desired, st: Store, site: Site, id: Id)
    requires LawfulOwner(env.own) && LawfulNet(env.net) && DesiredOk(env.net, d) && site.listener != "" && Fresh(st, id)
    ensures SafeStep({d}, st, EnsureStep(env, d, site, st, id), site)
  {
    hide LawfulOwner, LawfulNet, DesiredOk, TreeOk, Fresh, EnsurePlan, GraphOf, Execute, Justified, SafeStep;
    NothingIsSafe({d}, st, site);
    if TreeOk(env, st, site) {
      var plan := EnsurePlan(env.net, d, GraphOf(env, st, site));
      if plan.Some? && plan.value != [] {
        PlanHeadJustified(env, d, st, site, plan.value);
        JustifiedIsSafe(env, d, st, site, plan.value[0], id);
      }
    }
  }

  lemma NothingIsSafe(ensured: set<Desired>, st: Store, site: Site)
    ensures SafeStep(ensured, st, st, site)
  {
  }

  lemma DeleteIsSafe(env: Env, st: Store, site: Site)
    requires site.listener != ""
    ensures SafeStep({}, st, DeleteStep(env, site, st), site)
  {
    hide TreeOk, DeletionPlan, GraphOf, Execute, SafeStep;
    NothingIsSafe({}, st, site);
    if TreeOk(env, st, site) && DeletionPlan(GraphOf(env, st, site)) != [] {
      DeletionIsSafe(env, st, site);
    }
  }

  lemma EventIsSafe(env: Env, site: Site, st: Store, event: Event, st': Store)
    requires LawfulOwner(env.own) && LawfulNet(env.net) && site.listener != "" && EventStep(env, site, st, event, st')
    ensures SafeStep(EnsuredIn(event), st, st', site)
  {
    hide LawfulOwner, LawfulNet, DesiredOk, Fresh, EnsureStep, DeleteStep, SafeStep;
    match event {
      case Idle => NothingIsSafe({}, st, site);
      case Ensured(d, id) => EnsureIsSafe(env, d, st, site, id);
      case Deleted => DeleteIsSafe(env, st, site);
    }
  }

  /** Traffic safety over whole runs. No step edits or removes an enabled policy
      or any of its rules, and at every moment every enabled policy is the intact
      image of a route of the history so far. */
  lemma {:induction false} TrafficSafety(
    env: Env, site: Site, states: seq<Store>, events: seq<Event>, history: set<Desired>, i: nat)
    requires LawfulOwner(env.own) && LawfulNet(env.net) && site.listener != ""
    requires IsTrafficRun(env, site, states, events) && Safe(history, states[0], site) && i <= |events|
    ensures Safe(history + EnsuredBy(events[..i]), states[i], site)
    ensures i < |events| ==> LitUntouched(states[i], states[i + 1], site.listener)
    decreases |events|
  {
    hide LawfulOwner, LawfulNet, EventStep, Safe, LitUntouched, EnablesImages, PoolsStay;
    if events != [] {
      EventIsSafe(env, site, states[0], events[0], states[1]);
    }
    if i == 0 {
      assert history + EnsuredBy(events[..0]) == history;
    } else {
      SafeStepKeepsSafe(history, EnsuredIn(events[0]), states[0], states[1], site);
      TrafficSafety(env, site, states[1..], events[1..], history + EnsuredIn(events[0]), i - 1);
      assert events[..i][0] == events[0] && events[..i][1..] == events[1..][..i - 1];
      assert history + EnsuredIn(events[0]) + EnsuredBy(events[1..][..i - 1]) == history + EnsuredBy(events[..i]);
    }
  }

  // ----- the requests an intact policy matches -----

  predicate HostOk(hostname: string, request: Request)
  {
    hostname == "" || request.host == hostname
  }

  lemma WantedRulesHold(d: Desired, w: DesiredPolicy, request: Request)
    ensures (forall wr :: wr in RulesFor(w, d.spec.hostname) ==> WantedHolds(wr, request)) <==>
            PolicyAccepts(w, request.path) && HostOk(d.spec.hostname, request)
  {
    var rules := RulesFor(w, d.spec.hostname);
    assert rules[0] in rules;
    if d.spec.hostname != "" {
      assert rules[1] in rules;
    }
  }

  predicate WantedHolds(wr: DesiredRule, request: Request)
  {
    Compares(wr.compareType, wr.value, if wr.ruleType == PathType then request.path else request.host)
  }

  lemma SettledHolds(d: Desired, w: DesiredPolicy, wr: DesiredRule, rule: Rule, request: Request)
    requires wr in RulesFor(w, d.spec.hostname) && RuleSettled(wr, rule)
    ensures rule.up && !rule.invert && (RuleHolds(rule, request) <==> WantedHolds(wr, request))
  {
  }

  /** An intact policy matches exactly the requests its compiled form accepts. */
  lemma ImageMatches(d: Desired, w: DesiredPolicy, rules: Rules, p: Id, request: Request)
    requires RulesImage(d, w, rules, p)
    ensures PolicyMatches(rules, p, request) <==> PolicyAccepts(w, request.path) && HostOk(d.spec.hostname, request)
  {
    hide RulesFor, RuleSettled, RuleHolds, WantedHolds, PolicyAccepts, HostOk;
    WantedRulesHold(d, w, request);
    if PolicyMatches(rules, p, request) {
      forall wr | wr in RulesFor(w, d.spec.hostname) ensures WantedHolds(wr, request) {
        assert IsPresent(rules, p, wr);
        var r :| r in RulesOf(rules, p) && RuleSettled(wr, rules[r]);
        SettledHolds(d, w, wr, rules[r], request);
      }
    }
    if forall wr :: wr in RulesFor(w, d.spec.hostname) ==> WantedHolds(wr, request) {
      forall r | r in RulesOf(rules, p) ensures RuleHolds(rules[r], request) && !rules[r].invert {
        assert IsWanted(d, w, rules[r]);
        var wr :| wr in RulesFor(w, d.spec.hostname) && RuleSettled(wr, rules[r]);
        SettledHolds(d, w, wr, rules[r], request);
      }
    }
  }

  predicate ValidPath(spec: RouteSpec)
  {
    !spec.pathType.OtherMatch? && (spec.pathValue == "" || spec.pathValue[0] == '/')
  }

  /** Whatever an enabled policy of a safe store routes, some route of the history
      asks for, and the request goes to an existing pool of the Gateway. */
  lemma RoutedIsWanted(history: set<Desired>, st: Store, site: Site, p: Id, request: Request)
    requires Safe(history, st, site) && Routes(st, site.listener, p, request) && Absolute(request)
    requires forall d :: d in history ==> d.policies == PoliciesFor(d.spec) && ValidPath(d.spec)
    ensures exists d :: d in history && RouteMatches(d.spec, request)
    ensures st.policies[p].action == RedirectToPool && st.policies[p].redirectPool in PoolsOf(st.pools, site.loadBalancer)
  {
    hide PolicyMatches, RulesImage, PoliciesFor, GatewayAPIPathMatch, PolicyAccepts;
    assert SomeImage(history, st, site, p);
    var d :| d in history && Image(d, st, site, p);
    var w :| ImageOf(d, w, st, site, p);
    ImageMatches(d, w, st.rules, p, request);
    var i :| 0 <= i < |d.policies| && d.policies[i] == w;
    PathCompilation(d.spec, request.path);
    assert RouteMatches(d.spec, request);
  }

  /** With one specification and every policy disabled at the start, every request
      an enabled policy ever routes matches the route. */
  lemma OneSpecTraffic(
    env: Env, site: Site, states: seq<Store>, events: seq<Event>, d: Desired, i: nat, p: Id, request: Request)
    requires LawfulOwner(env.own) && LawfulNet(env.net) && site.listener != "" && d.policies == PoliciesFor(d.spec) && ValidPath(d.spec)
    requires IsTrafficRun(env, site, states, events) && EnsuredBy(events) <= {d} && Dark(states[0], site.listener)
    requires i <= |events| && Routes(states[i], site.listener, p, request) && Absolute(request)
    ensures RouteMatches(d.spec, request)
  {
    hide LawfulOwner, LawfulNet, EventStep, Routes, RouteMatches, PoliciesFor, ValidPath;
    assert Safe({}, states[0], site);
    TrafficSafety(env, site, states, events, {}, i);
    EnsuredPrefix(events, i);
    RoutedIsWanted({} + EnsuredBy(events[..i]), states[i], site, p, request);
  }

  lemma {:induction false} EnsuredPrefix(events: seq<Event>, i: nat)
    requires i <= |events|
    ensures EnsuredBy(events[..i]) <= EnsuredBy(events)
  {
    if i > 0 {
      assert events[..i][1..] == events[1..][..i - 1];
      EnsuredPrefix(events[1..], i - 1);
    }
  }

  // ----- a converged route serves exactly what it should -----

  lemma ConvergedPolicy(env: Env, d: Desired, st: Store, site: Site, role: Role, pool: Id)
    requires TreeOk(env, st, site) && site.listener != "" && PoolsOf(st.pools, site.loadBalancer) == {pool}
    requires PolicyInPlace(d, role, View(env, st, site, role), pool)
    ensures var v := View(env, st, site, role);
            (WantedPolicy(d, role).Some? <==> v.HasPolicy?) &&
            (v.HasPolicy? ==>
              ImageOf(d, WantedPolicy(d, role).value, st, site, v.id) && st.policies[v.id].up &&
              st.policies[v.id].redirectPool == pool && v.id in PoliciesOf(st.policies, site.listener))
  {
    hide TreeOk, RolePolicy, RulesOk, RulesFor, FindPolicy, FindRule, RuleSettled, ViewRule, RulesImage;
    var v := View(env, st, site, role);
    if v.HasPolicy? {
      ViewedPolicy(env, st, site, role);
      CostlessRules(env, d, WantedPolicy(d, role).value, st.rules, v.id);
    }
  }

  /** In a converged route an absolute request is routed exactly when the Gateway
      API says so, by exactly one policy. */
  lemma ConvergedServes(env: Env, d: Desired, st: Store, site: Site, request: Request)
    requires DesiredOk(env.net, d) && ValidPath(d.spec) && Absolute(request)
    requires TreeOk(env, st, site) && site.listener != "" && Converged(env, d, st, site)
    ensures RouteMatches(d.spec, request) <==> exists p :: Routes(st, site.listener, p, request)
    ensures forall p, q :: Routes(st, site.listener, p, request) && Routes(st, site.listener, q, request) ==> p == q
  {
    hide TreeOk, PolicyMatches, PoliciesFor, PolicyAccepts, GatewayAPIPathMatch, ImageOf, PolicyInPlace, PoolInPlace,
         View, FindPolicy;
    var pool :| PoolInPlace(env, d, st, site, pool) &&
                PolicyInPlace(d, PolicyExact, View(env, st, site, PolicyExact), pool) &&
                PolicyInPlace(d, PolicyPrefix, View(env, st, site, PolicyPrefix), pool);
    assert PoolsOf(st.pools, site.loadBalancer) == {pool} by {
      PoolInPlacePools(env, d, st, site, pool);
    }
    forall p | Routes(st, site.listener, p, request) ensures Serves(env, d, st, site, p, request) {
      OnlyImagesRoute(env, d, st, site, pool, p, request);
    }
    PathCompilation(d.spec, request.path);
    if RouteMatches(d.spec, request) {
      var i :| 0 <= i < |d.policies| && PolicyAccepts(d.policies[i], request.path);
      WantedServes(env, d, st, site, pool, d.policies[i], request);
    }
    forall p, q | Routes(st, site.listener, p, request) && Routes(st, site.listener, q, request) ensures p == q {
      ServedOnce(env, d, st, site, p, q, request);
    }
  }

  lemma PoolInPlacePools(env: Env, d: Desired, st: Store, site: Site, pool: Id)
    requires PoolInPlace(env, d, st, site, pool)
    ensures PoolsOf(st.pools, site.loadBalancer) == {pool}
  {
  }

  /** The policy of some wanted role, accepting the request. */
  ghost predicate Serves(env: Env, d: Desired, st: Store, site: Site, p: Id, request: Request)
  {
    exists i :: 0 <= i < |d.policies| && PolicyAccepts(d.policies[i], request.path) && HostOk(d.spec.hostname, request) &&
      View(env, st, site, d.policies[i].role).HasPolicy? && View(env, st, site, d.policies[i].role).id == p
  }

  lemma OnlyImagesRoute(env: Env, d: Desired, st: Store, site: Site, pool: Id, p: Id, request: Request)
    requires d.policies == PoliciesFor(d.spec)
    requires TreeOk(env, st, site) && site.listener != "" && PoolsOf(st.pools, site.loadBalancer) == {pool}
    requires forall role :: IsPolicyRole(role) ==> PolicyInPlace(d, role, View(env, st, site, role), pool)
    requires Routes(st, site.listener, p, request)
    ensures Serves(env, d, st, site, p, request)
  {
    hide PoolTreeOk, PolicyTreeOk, PolicyMatches, PoliciesFor, PolicyAccepts, PolicyInPlace, FindPolicy, RulesImage,
         RolePolicy;
    var role := PolicyHasRole(env, st.policies, st.rules, site.listener, p);
    ConvergedPolicy(env, d, st, site, role, pool);
    var w := WantedPolicy(d, role).value;
    ImageMatches(d, w, st.rules, p, request);
    var i :| 0 <= i < |d.policies| && d.policies[i] == w;
  }

  lemma WantedServes(env: Env, d: Desired, st: Store, site: Site, pool: Id, w: DesiredPolicy, request: Request)
    requires d.policies == PoliciesFor(d.spec) && w in d.policies
    requires TreeOk(env, st, site) && site.listener != "" && PoolsOf(st.pools, site.loadBalancer) == {pool}
    requires forall role :: IsPolicyRole(role) ==> PolicyInPlace(d, role, View(env, st, site, role), pool)
    requires PolicyAccepts(w, request.path) && HostOk(d.spec.hostname, request)
    ensures exists p :: Routes(st, site.listener, p, request)
  {
    hide TreeOk, PolicyMatches, PoliciesFor, PolicyAccepts, PolicyInPlace, FindPolicy, RulesImage, View;
    DesiredRoles(d, w);
    ConvergedPolicy(env, d, st, site, w.role, pool);
    var p := View(env, st, site, w.role).id;
    ImageMatches(d, w, st.rules, p, request);
    assert Routes(st, site.listener, p, request);
  }

  lemma ServedOnce(env: Env, d: Desired, st: Store, site: Site, p: Id, q: Id, request: Request)
    requires d.policies == PoliciesFor(d.spec)
    requires Serves(env, d, st, site, p, request) && Serves(env, d, st, site, q, request)
    ensures p == q
  {
    hide PoliciesFor, PolicyAccepts, View, HostOk;
    var i :| 0 <= i < |d.policies| && PolicyAccepts(d.policies[i], request.path) &&
             View(env, st, site, d.policies[i].role).HasPolicy? && View(env, st, site, d.policies[i].role).id == p;
    var j :| 0 <= j < |d.policies| && PolicyAccepts(d.policies[j], request.path) &&
             View(env, st, site, d.policies[j].role).HasPolicy? && View(env, st, site, d.policies[j].role).id == q;
    if i < j {
      PoliciesDisjoint(d.spec, request.path, i, j);
    } else if j < i {
      PoliciesDisjoint(d.spec, request.path, j, i);
    }
  }
}
