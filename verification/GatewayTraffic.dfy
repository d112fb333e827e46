/** What deleting a Gateway does to traffic. DeleteGateway removes rules and
    policies without disabling them first, so it edits enabled policies; exactly
    when it does is a question about the policies before the first call. */
module GatewayTraffic {
  import opened Order
  import opened Ownership
  import opened Octavia
  import opened RouteModel
  import opened RouteTree
  import opened RoutePlan
  import opened PolicyViews
  import opened RouteProgress
  import opened RouteTraffic
  import opened GatewayTree
  import opened GatewayDeletion
  import opened Provider
  import opened AdminGating
  import opened OwnershipTags

  // ----- one call -----

  /** The removal takes an enabled policy of the listener, or a rule of one. */
  ghost predicate HitsLit(st: Store, m: Removal, l: Id)
  {
    match m
    case RemoveRule(_, p) => p in PoliciesOf(st.policies, l) && st.policies[p].up
    case RemovePolicy(p) => p in PoliciesOf(st.policies, l) && st.policies[p].up
    case _ => false
  }

  lemma RemovalEdits(st: Store, lb: Id, m: Removal, l: Id)
    requires lb in st.loadBalancers && RemovesGatewayLeaf(st, lb, m)
    ensures LitUntouched(st, Remove(st, m), l) <==> !HitsLit(st, m, l)
  {
    var st' := Remove(st, m);
    match m {
      case RemoveRule(r, p) =>
        assert r in RulesOf(st.rules, p) && r !in RulesOf(st'.rules, p);
        forall q | q in st.policies && q != p ensures SameRules(st.rules, st'.rules, q) {
          assert RulesOf(st'.rules, q) == RulesOf(st.rules, q);
        }
        if !HitsLit(st, m, l) {
          forall q | q in PoliciesOf(st.policies, l) && st.policies[q].up ensures RouteTraffic.Untouched(st, st', q) {
            assert q != p;
          }
        }
        if HitsLit(st, m, l) {
          assert !RouteTraffic.Untouched(st, st', p);
        }
      case RemovePolicy(p) =>
        if HitsLit(st, m, l) {
          assert !RouteTraffic.Untouched(st, st', p);
        }
      case _ =>
        assert st'.policies == st.policies && st'.rules == st.rules;
    }
  }

  /** One DeleteGateway call leaves the enabled policies of a listener alone exactly
      when the head of its plan is no removal from one of them. */
  lemma DeleteGatewayEditsIff(env: Env, st: Store, lb: Id, l: Id)
    requires lb in st.loadBalancers && Deletable(env, st, lb)
    ensures LitUntouched(st, Remove(st, FullPlan(st, lb)[0]), l) <==> !HitsLit(st, FullPlan(st, lb)[0], l)
  {
    hide Deletable, FullPlan, LitUntouched, HitsLit, Remove, RemovesGatewayLeaf;
    GatewayDeletionTail(env, st, lb);
    RemovalEdits(st, lb, FullPlan(st, lb)[0], l);
  }

  // ----- whole deletions -----

  /** No policy beneath the load balancer is enabled. */
  ghost predicate AllDark(st: Store, lb: Id)
  {
    forall l :: l in ListenersOf(st.listeners, lb) ==> Dark(st, l)
  }

  /** The k-th call of a deletion leaves every enabled policy alone. */
  ghost predicate QuietAt(env: Env, st: Store, k: nat)
  {
    Quiet(DeleteGatewaySteps(env, st, k), DeleteGatewaySteps(env, st, k + 1))
  }

  ghost predicate Quiet(st: Store, st': Store)
  {
    forall l :: LitUntouched(st, st', l)
  }

  ghost predicate QuietDeletion(env: Env, st: Store, lb: Id)
    requires lb in st.loadBalancers
  {
    forall k :: 0 <= k < |FullPlan(st, lb)| ==> QuietAt(env, st, k)
  }

  lemma OneCall(env: Env, st: Store, lb: Id)
    requires ReadyToDelete(env, st, lb)
    ensures DeleteGatewayResult(env, st).store == Remove(st, FullPlan(st, lb)[0])
  {
    hide FindLoadBalancer, Deletable, FullPlan, Remove;
  }

  /** A policy outside the tree is out of reach. */
  lemma HitIsBeneath(st: Store, lb: Id, m: Removal, l: Id)
    requires lb in st.loadBalancers && RemovesGatewayLeaf(st, lb, m) && HitsLit(st, m, l)
    ensures l in ListenersOf(st.listeners, lb) && !Dark(st, l)
  {
  }

  /** Removals enable nothing. */
  lemma RemovalKeepsDark(st: Store, lb: Id, m: Removal)
    requires AllDark(st, lb)
    ensures AllDark(Remove(st, m), lb)
  {
    var st' := Remove(st, m);
    forall l | l in ListenersOf(st'.listeners, lb) ensures Dark(st', l) {
      assert l in ListenersOf(st.listeners, lb);
      assert Dark(st, l);
      assert forall p :: p in PoliciesOf(st'.policies, l) ==> p in PoliciesOf(st.policies, l) && st'.policies[p] == st.policies[p];
    }
  }

  lemma DarkCallIsQuiet(env: Env, st: Store, lb: Id, l: Id)
    requires ReadyToDelete(env, st, lb) && AllDark(st, lb)
    ensures LitUntouched(st, DeleteGatewayResult(env, st).store, l)
  {
    hide FindLoadBalancer, Deletable, FullPlan, Remove, LitUntouched, HitsLit, RemovesGatewayLeaf, Dark;
    OneCall(env, st, lb);
    DeleteGatewayEditsIff(env, st, lb, l);
    GatewayDeletionTail(env, st, lb);
    if HitsLit(st, FullPlan(st, lb)[0], l) {
      HitIsBeneath(st, lb, FullPlan(st, lb)[0], l);
    }
  }

  lemma {:induction false} DarkDeletionIsQuiet(env: Env, st: Store, lb: Id, k: nat)
    requires ReadyToDelete(env, st, lb) && AllDark(st, lb) && k < |FullPlan(st, lb)|
    ensures QuietAt(env, st, k)
    decreases k
  {
    hide FindLoadBalancer, Deletable, FullPlan, Remove, LitUntouched, AllDark;
    var st1 := DeleteGatewayResult(env, st).store;
    if k == 0 {
      assert DeleteGatewaySteps(env, st, 1) == DeleteGatewaySteps(env, st1, 0);
      forall l ensures LitUntouched(st, st1, l) {
        DarkCallIsQuiet(env, st, lb, l);
      }
    } else {
      DeleteGatewayAdvances(env, st, lb);
      OneCall(env, st, lb);
      RemovalKeepsDark(st, lb, FullPlan(st, lb)[0]);
      DarkDeletionIsQuiet(env, st1, lb, k - 1);
      assert DeleteGatewaySteps(env, st, k) == DeleteGatewaySteps(env, st1, k - 1);
      assert DeleteGatewaySteps(env, st, k + 1) == DeleteGatewaySteps(env, st1, k);
    }
  }

  /** An enabled policy beneath the load balancer survives every step that does not
      hit one, and such a step is not the last. */
  lemma LitSurvives(st: Store, lb: Id, m: Removal, l: Id, p: Id)
    requires lb in st.loadBalancers && RemovesGatewayLeaf(st, lb, m) && !HitsLit(st, m, l)
    requires l in ListenersOf(st.listeners, lb) && p in PoliciesOf(st.policies, l) && st.policies[p].up
    ensures var st' := Remove(st, m);
            !m.RemoveLoadBalancer? && l in ListenersOf(st'.listeners, lb) && p in PoliciesOf(st'.policies, l) && st'.policies[p].up
  {
  }

  /** With an enabled policy beneath the load balancer, some call of the deletion
      edits an enabled policy. */
  lemma {:induction false} LitDeletionIsLoud(env: Env, st: Store, lb: Id, l: Id, p: Id) returns (k: nat)
    requires ReadyToDelete(env, st, lb)
    requires l in ListenersOf(st.listeners, lb) && p in PoliciesOf(st.policies, l) && st.policies[p].up
    ensures k < |FullPlan(st, lb)| && !QuietAt(env, st, k)
    decreases |FullPlan(st, lb)|
  {
    hide FindLoadBalancer, Deletable, FullPlan, Remove, LitUntouched, HitsLit, RemovesGatewayLeaf;
    var st1 := DeleteGatewayResult(env, st).store;
    var m := FullPlan(st, lb)[0];
    OneCall(env, st, lb);
    GatewayDeletionTail(env, st, lb);
    DeleteGatewayEditsIff(env, st, lb, l);
    if HitsLit(st, m, l) {
      k := 0;
      assert DeleteGatewaySteps(env, st, 1) == DeleteGatewaySteps(env, st1, 0);
      assert !LitUntouched(st, st1, l);
    } else {
      LitSurvives(st, lb, m, l, p);
      DeleteGatewayAdvances(env, st, lb);
      PlanGoesOn(env, st, lb);
      var rest := LitDeletionIsLoud(env, st1, lb, l, p);
      k := rest + 1;
      assert DeleteGatewaySteps(env, st, k) == DeleteGatewaySteps(env, st1, rest);
      assert DeleteGatewaySteps(env, st, k + 1) == DeleteGatewaySteps(env, st1, k);
    }
  }

  lemma PlanGoesOn(env: Env, st: Store, lb: Id)
    requires lb in st.loadBalancers && Deletable(env, st, lb) && !FullPlan(st, lb)[0].RemoveLoadBalancer?
    ensures |FullPlan(st, lb)| > 1
  {
    hide Deletable, FullPlan, Remove, RemovesGatewayLeaf;
    GatewayDeletionTail(env, st, lb);
    assert FullPlan(Remove(st, FullPlan(st, lb)[0]), lb) != [];
  }

  /** The exact condition: a whole Gateway deletion edits no enabled policy if and
      only if every policy beneath the load balancer is disabled when it starts. */
  lemma QuietDeletionIff(env: Env, st: Store, lb: Id)
    requires ReadyToDelete(env, st, lb)
    ensures QuietDeletion(env, st, lb) <==> AllDark(st, lb)
  {
    hide FindLoadBalancer, Deletable, FullPlan, QuietAt;
    if AllDark(st, lb) {
      forall k | 0 <= k < |FullPlan(st, lb)| ensures QuietAt(env, st, k) {
        DarkDeletionIsQuiet(env, st, lb, k);
      }
    } else {
      var l :| l in ListenersOf(st.listeners, lb) && !Dark(st, l);
      var p :| p in PoliciesOf(st.policies, l) && st.policies[p].up;
      var k := LitDeletionIsLoud(env, st, lb, l, p);
    }
  }

  // ----- a deletion that misroutes -----

  const OWNER: Owner :=
    Owner((tags: Tags, role: Role) => tags == [RoleName(role)], (tags: Tags, role: Role) => tags == [RoleName(role)],
          (tags: Tags, role: Role) => tags == [RoleName(role)], (tags: Tags, role: Role) => tags == [RoleName(role)],
          (tags: Tags) => tags == [RoleName(LoadBalancerRole)], (text: string) => text == "owned",
          (role: Role) => [RoleName(role)], (role: Role) => [RoleName(role)], "owned")

  const ENV: Env := Env("project", Net((a: string) => Some(a), (a: string, port: int) => a), OWNER)

  const SPEC: RouteSpec :=
    RouteSpec("", "", "amphora", "vip", "", 80, "members", "/", "example.com", ExactMatch, "/shop", [Endpoint("192.0.2.1", 80)])

  const ROUTE: Desired := Desired(SPEC, [Endpoint("192.0.2.1", 80)], "/", PoliciesFor(SPEC))

  const HOST_RULE: Rule := Rule("policy", "project", [RoleName(RuleHost)], HostNameType, EqualTo, "example.com", false, true)

  const PATH_RULE: Rule := Rule("policy", "project", [RoleName(RulePath)], PathType, EqualTo, "/shop", false, true)

  /** One enabled policy with a host and a path rule. */
  const BEFORE: Store :=
    Store(map["lb" := LoadBalancer("project", [RoleName(LoadBalancerRole)], "amphora", "vip", "port", Active, true)],
          map["listener" := Listener("lb", ["lb"], "project", [RoleName(ListenerRole)], HTTP, 80, true)],
          map[],
          map["pool" := Pool("lb", ["lb"], "project", [RoleName(PoolRole)], HTTP, RoundRobin, true)],
          map[], map[],
          map["policy" := Policy("listener", "listener", "project", [RoleName(PolicyExact)], RedirectToPool, "pool", 1, true)],
          map["a" := HOST_RULE, "b" := PATH_RULE])

  const SITE: Site := Site("lb", "listener")

  /** A request for the route's path on another host. */
  const STRAY: Request := Request("other.example", "/shop")

  lemma OwnerIsLawful()
    ensures LawfulOwner(OWNER)
  {
    forall role, other | role != other ensures RoleName(role) != RoleName(other) {
      if RoleName(role) == RoleName(other) {
        RoleNamesDiffer(role, other);
      }
    }
  }

  lemma BeforeIsDeletable()
    ensures ReadyToDelete(ENV, BEFORE, "lb")
  {
    hide RoleName;
    assert ListedLoadBalancers(OWNER, BEFORE.loadBalancers) == {"lb"};
    assert FloatingIPsOf(BEFORE.floatingIPs, "port") == {};
    assert ListenersOf(BEFORE.listeners, "lb") == {"listener"};
    assert PoolsOf(BEFORE.pools, "lb") == {"pool"};
    assert PoliciesOf(BEFORE.policies, "listener") == {"policy"};
  }

  const WANTED: DesiredPolicy := DesiredPolicy(PolicyExact, 1, EqualTo, "/shop")
  const WANTED_PATH: DesiredRule := DesiredRule(RulePath, PathType, EqualTo, "/shop")
  const WANTED_HOST: DesiredRule := DesiredRule(RuleHost, HostNameType, EqualTo, "example.com")

  lemma WantedParts()
    ensures ROUTE.policies == [WANTED] && RulesFor(WANTED, "example.com") == [WANTED_PATH, WANTED_HOST]
    ensures RuleSettled(WANTED_HOST, HOST_RULE) && RuleSettled(WANTED_PATH, PATH_RULE)
  {
    hide RoleName;
  }

  lemma BeforeRules()
    ensures RulesOf(BEFORE.rules, "policy") == {"a", "b"} && BEFORE.rules["a"] == HOST_RULE && BEFORE.rules["b"] == PATH_RULE
  {
    hide RoleName;
  }

  lemma BeforeRulesImage()
    ensures RulesImage(ROUTE, WANTED, BEFORE.rules, "policy")
  {
    hide RoleName, RulesFor, RuleSettled, PoliciesFor, RulesOf;
    WantedParts();
    BeforeRules();
    var rules := RulesFor(WANTED, ROUTE.spec.hostname);
    assert rules == [WANTED_PATH, WANTED_HOST];
    assert WANTED_PATH in rules && WANTED_HOST in rules;
    assert IsWanted(ROUTE, WANTED, HOST_RULE) && IsWanted(ROUTE, WANTED, PATH_RULE);
    assert IsPresent(BEFORE.rules, "policy", WANTED_PATH) && IsPresent(BEFORE.rules, "policy", WANTED_HOST);
  }

  lemma BeforeIsSafe()
    ensures Safe({ROUTE}, BEFORE, SITE)
  {
    hide RoleName, RulesImage, PoliciesFor;
    WantedParts();
    BeforeRulesImage();
    assert WANTED in ROUTE.policies;
    assert ImageOf(ROUTE, WANTED, BEFORE, SITE, "policy");
    assert SomeImage({ROUTE}, BEFORE, SITE, "policy");
  }

  /** The stray request fails the host rule and meets the path rule. */
  lemma StrayAgainstRules()
    ensures !RuleHolds(HOST_RULE, STRAY) && RuleHolds(PATH_RULE, STRAY) && !RouteMatches(SPEC, STRAY)
  {
    hide RoleName, GatewayAPIPathMatch;
    assert STRAY.host[0] == 'o' && SPEC.hostname[0] == 'e' && HOST_RULE.value[0] == 'e';
  }

  lemma StrayBefore()
    ensures !Routes(BEFORE, "listener", "policy", STRAY)
  {
    hide RoleName, RuleHolds;
    BeforeRules();
    StrayAgainstRules();
    hide RulesOf;
    assert "a" in RulesOf(BEFORE.rules, "policy") && BEFORE.rules["a"].up && !BEFORE.rules["a"].invert;
  }

  lemma StrayAfter()
    ensures Routes(Remove(BEFORE, RemoveRule("a", "policy")), "listener", "policy", STRAY)
  {
    hide RoleName, RuleHolds;
    StrayAgainstRules();
    var after := Remove(BEFORE, RemoveRule("a", "policy"));
    assert after.rules == map["b" := PATH_RULE];
    assert RulesOf(after.rules, "policy") == {"b"};
    assert after.policies == BEFORE.policies && "policy" in PoliciesOf(after.policies, "listener");
  }

  lemma FirstId(ids: set<Id>, first: Id)
    requires first in ids && forall id :: id in ids && id != first ==> StrLess(first, id)
    ensures SortedIds(ids)[0] == first
  {
    var head := SortedIds(ids)[0];
    IdsLeast(ids);
    if head != first {
      StrAsymmetric(first, head);
    }
  }

  lemma StrAsymmetric(a: string, b: string)
    requires StrLess(a, b)
    ensures !StrLess(b, a)
  {
    StrIrreflexive(a);
    if StrLess(b, a) {
      StrTransitive(a, b, a);
    }
  }

  lemma OneId(id: Id)
    ensures SortedIds({id}) == [id]
  {
    var r := SortedIds({id});
    SortedIdsTail({id});
    assert {id} - {r[0]} == {};
    assert r == [r[0]] + r[1..];
  }

  lemma OnePolicy(policies: Policies, l: Id, p: Id)
    requires PoliciesOf(policies, l) == {p}
    ensures SortedPolicies(policies, l) == [p]
  {
    var r := SortedPolicies(policies, l);
    SortedPoliciesTail(policies, l);
    assert r[0] == p && PoliciesOf(policies - {p}, l) == {};
    assert r == [r[0]] + r[1..];
  }

  lemma FirstRouteRemoval()
    ensures RouteRemovals(BEFORE.policies, BEFORE.rules, ["listener"]) != []
    ensures RouteRemovals(BEFORE.policies, BEFORE.rules, ["listener"])[0] == RemoveRule("a", "policy")
  {
    hide RoleName, SortedIds, SortedPolicies, PolicyRemovals, RouteRemovals;
    BeforeRules();
    assert PoliciesOf(BEFORE.policies, "listener") == {"policy"};
    OnePolicy(BEFORE.policies, "listener", "policy");
    FirstId({"a", "b"}, "a");
    PolicyRemovalsHead(BEFORE.rules, ["policy"]);
    FirstListenerHead(BEFORE.policies, BEFORE.rules, ["listener"]);
  }

  /** The first thing the deletion removes is the host rule. */
  lemma HostRuleGoesFirst()
    ensures "lb" in BEFORE.loadBalancers && FullPlan(BEFORE, "lb")[0] == RemoveRule("a", "policy")
  {
    hide RoleName, SortedIds, SortedPolicies, RouteRemovals, PoolRemovals;
    assert ListenersOf(BEFORE.listeners, "lb") == {"listener"};
    OneId("listener");
    FirstRouteRemoval();
    StepsHeadTail(PlansFor(BEFORE, "lb"), LastSteps(BEFORE, "lb"));
  }

  /** A concrete misrouting: one DeleteGateway call on a safe store removes the host
      rule of the enabled policy, which then routes a request the route rejects. */
  lemma DeletionMisroutes()
    ensures LawfulOwner(ENV.own) && ReadyToDelete(ENV, BEFORE, "lb") && Safe({ROUTE}, BEFORE, SITE)
    ensures var after := DeleteGatewayResult(ENV, BEFORE).store;
            Routes(after, "listener", "policy", STRAY) && !RouteMatches(SPEC, STRAY) && !Routes(BEFORE, "listener", "policy", STRAY)
  {
    hide RoleName, LawfulOwner, ReadyToDelete, Safe, FullPlan, DeleteGatewayResult, Remove, Routes, RouteMatches, PoliciesFor;
    OwnerIsLawful();
    BeforeIsDeletable();
    BeforeIsSafe();
    HostRuleGoesFirst();
    OneCall(ENV, BEFORE, "lb");
    StrayAgainstRules();
    StrayBefore();
    StrayAfter();
  }
}
