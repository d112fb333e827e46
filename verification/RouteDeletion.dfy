/** Deleting a route: executing the head of the deletion plan and observing again
    yields exactly the rest of the plan, and only leaves are ever removed. */
module RouteDeletion {
  import opened Ownership
  import opened Octavia
  import opened RouteModel
  import opened RouteTree
  import opened RoutePlan
  import opened RouteSteps
  import opened PolicyViews
  import opened RouteProgress
  import opened RouteHead

  function RuleDeletes(policies: seq<ObservedPolicy>): seq<Mutation>
  {
    if policies == [] then []
    else DeleteRules(policies[0].id, ObservedRuleIds(policies[0].rules)) + RuleDeletes(policies[1..])
  }

  function PolicyDeletes(policies: seq<ObservedPolicy>): (r: seq<Mutation>)
    ensures |r| == |policies| && forall i :: 0 <= i < |r| ==> r[i] == DeletePolicy(policies[i].id)
  {
    seq(|policies|, i requires 0 <= i < |policies| => DeletePolicy(policies[i].id))
  }

  function MemberDeletes(members: seq<ObservedMember>, pool: Id): (r: seq<Mutation>)
    ensures |r| == |members| && forall i :: 0 <= i < |r| ==> r[i] == DeleteMember(members[i].id, pool)
  {
    seq(|members|, i requires 0 <= i < |members| => DeleteMember(members[i].id, pool))
  }

  /** Monitor, members and pool, in this order. */
  function PoolDeletes(g: RouteGraph): seq<Mutation>
  {
    if g.pool.None? then []
    else
      var pool := g.pool.value.id;
      (if g.monitor.Some? then [DeleteMonitor(g.monitor.value.id, pool)] else []) + MemberDeletes(g.members, pool) +
      [DeletePool(pool)]
  }

  function DeletionPlan(g: RouteGraph): seq<Mutation>
  {
    DisableSteps(g.policies) + RuleDeletes(g.policies) + PolicyDeletes(g.policies) + PoolDeletes(g)
  }

  method BuildRuleDeletes(policies: seq<ObservedPolicy>) returns (plan: seq<Mutation>)
    ensures plan == RuleDeletes(policies)
  {
    plan := [];
    for i := 0 to |policies|
      invariant plan + RuleDeletes(policies[i..]) == RuleDeletes(policies)
    {
      assert policies[i..][0] == policies[i] && policies[i..][1..] == policies[i + 1..];
      var step := DeleteRules(policies[i].id, ObservedRuleIds(policies[i].rules));
      Assoc(plan, step, RuleDeletes(policies[i + 1..]));
      plan := plan + step;
    }
  }

  method BuildRouteDeletionPlan(g: RouteGraph) returns (plan: seq<Mutation>)
    ensures plan == DeletionPlan(g)
  {
    hide DisableSteps, RuleDeletes;
    plan := BuildDisablePlan(g.policies);
    var rules := BuildRuleDeletes(g.policies);
    plan := plan + rules;
    ghost var before := plan;
    for i := 0 to |g.policies|
      invariant plan == before + PolicyDeletes(g.policies)[..i]
    {
      plan := plan + [DeletePolicy(g.policies[i].id)];
    }
    var pool := BuildPoolDeletes(g);
    plan := plan + pool;
  }

  method BuildPoolDeletes(g: RouteGraph) returns (plan: seq<Mutation>)
    ensures plan == PoolDeletes(g)
  {
    plan := [];
    if g.pool.Some? {
      var pool := g.pool.value.id;
      if g.monitor.Some? {
        plan := [DeleteMonitor(g.monitor.value.id, pool)];
      }
      ghost var monitor := plan;
      for i := 0 to |g.members|
        invariant plan == monitor + MemberDeletes(g.members, pool)[..i]
      {
        plan := plan + [DeleteMember(g.members[i].id, pool)];
      }
      plan := plan + [DeletePool(pool)];
    }
  }

  // ----- what remains after the head -----

  lemma {:induction false} DisableFirst(policies: seq<ObservedPolicy>, i: int, o: ObservedPolicy)
    requires 0 <= i < |policies| && policies[i].policy.up && forall j :: 0 <= j < i ==> !policies[j].policy.up
    requires !o.policy.up
    ensures DisableSteps(policies) != [] && DisableSteps(policies)[0] == DisablePolicy(policies[i].id)
    ensures DisableSteps(policies[i := o]) == DisableSteps(policies)[1..]
  {
    var policies' := policies[i := o];
    if i == 0 {
      assert policies'[1..] == policies[1..];
    } else {
      assert policies[1..][i - 1] == policies[i] && policies'[1..] == policies[1..][i - 1 := o];
      DisableFirst(policies[1..], i - 1, o);
    }
  }

  /** Rule and policy deletions depend only on IDs. */
  lemma {:induction false} RuleDeletesSame(policies: seq<ObservedPolicy>, policies': seq<ObservedPolicy>)
    requires |policies| == |policies'|
    requires forall i :: 0 <= i < |policies| ==> policies[i].id == policies'[i].id && policies[i].rules == policies'[i].rules
    ensures RuleDeletes(policies') == RuleDeletes(policies)
  {
    if policies != [] {
      assert forall i :: 0 <= i < |policies[1..]| ==> policies[1..][i] == policies[i + 1] && policies'[1..][i] == policies'[i + 1];
      RuleDeletesSame(policies[1..], policies'[1..]);
    }
  }

  lemma {:induction false} RuleDeletesFirst(policies: seq<ObservedPolicy>, i: int, o: ObservedPolicy)
    requires 0 <= i < |policies| && policies[i].rules != [] && forall j :: 0 <= j < i ==> policies[j].rules == []
    requires o.id == policies[i].id && o.rules == policies[i].rules[1..]
    ensures RuleDeletes(policies) != [] && RuleDeletes(policies)[0] == DeleteRule(policies[i].rules[0].id, policies[i].id)
    ensures RuleDeletes(policies[i := o]) == RuleDeletes(policies)[1..]
  {
    var policies' := policies[i := o];
    if i == 0 {
      assert policies'[1..] == policies[1..];
      var ids := ObservedRuleIds(policies[0].rules);
      assert ObservedRuleIds(o.rules) == ids[1..];
      assert DeleteRules(o.id, ids[1..]) == DeleteRules(o.id, ids)[1..];
    } else {
      assert DeleteRules(policies[0].id, ObservedRuleIds(policies[0].rules)) == [];
      assert policies[1..][i - 1] == policies[i] && policies'[1..] == policies[1..][i - 1 := o];
      assert forall j :: 0 <= j < i - 1 ==> policies[1..][j] == policies[j + 1];
      RuleDeletesFirst(policies[1..], i - 1, o);
    }
  }

  lemma {:induction false} NoRuleDeletes(policies: seq<ObservedPolicy>)
    ensures RuleDeletes(policies) == [] <==> forall i :: 0 <= i < |policies| ==> policies[i].rules == []
  {
    if policies != [] {
      NoRuleDeletes(policies[1..]);
      assert forall i :: 0 <= i < |policies[1..]| ==> policies[1..][i] == policies[i + 1];
      assert DeleteRules(policies[0].id, ObservedRuleIds(policies[0].rules)) == [] <==> policies[0].rules == [];
      if forall i :: 0 <= i < |policies[1..]| ==> policies[1..][i].rules == [] {
        forall i | 1 <= i < |policies| ensures policies[i].rules == [] {
          assert policies[i] == policies[1..][i - 1];
        }
      }
    }
  }

  // ----- what the next observation sees of the policies -----

  lemma SeenAt(env: Env, st: Store, site: Site, i: int)
    requires TreeOk(env, st, site) && site.listener != "" && 0 <= i < |PoliciesSeen(env, st, site.listener)|
    ensures var o := PoliciesSeen(env, st, site.listener)[i];
            o.id == SortedPolicies(st.policies, site.listener)[i] && o.id in PoliciesOf(st.policies, site.listener) &&
            o.policy == st.policies[o.id] && IsPolicyWith(env.own, st.policies, site.listener, o.role, o.id) &&
            RulesOk(env, st.rules, o.id) && o.rules == RulesSeen(env.own, st.rules, o.id)
  {
    hide RolePolicy, RoleRule, PoolTreeOk;
  }

  lemma SeenLength(env: Env, st: Store, site: Site)
    requires TreeOk(env, st, site) && site.listener != ""
    ensures |PoliciesSeen(env, st, site.listener)| == |SortedPolicies(st.policies, site.listener)|
  {
  }

  lemma SamePolicyKeys(policies: Policies, policies': Policies, listener: Id)
    requires PoliciesOf(policies', listener) == PoliciesOf(policies, listener)
    requires forall p :: p in PoliciesOf(policies, listener) ==> policies'[p].position == policies[p].position
    ensures SortedPolicies(policies', listener) == SortedPolicies(policies, listener)
  {
    forall k ensures k in PolicyKeys(policies', listener) <==> k in PolicyKeys(policies, listener) {
      if k in PolicyKeys(policies', listener) {
        var p :| p in PoliciesOf(policies', listener) && k == PolicyKey(p, policies'[p]);
        assert k == PolicyKey(p, policies[p]);
      }
      if k in PolicyKeys(policies, listener) {
        var p :| p in PoliciesOf(policies, listener) && k == PolicyKey(p, policies[p]);
        assert k == PolicyKey(p, policies'[p]);
      }
    }
    assert PolicyKeys(policies', listener) == PolicyKeys(policies, listener);
  }

  lemma SwitchedTree(env: Env, st: Store, st': Store, site: Site, role: Role, x: Id, up: bool)
    requires TreeOk(env, st, site) && site.listener != "" && IsPolicyWith(env.own, st.policies, site.listener, role, x)
    requires st' == st.(policies := st.policies[x := st.policies[x].(up := up)])
    ensures TreeOk(env, st', site)
    ensures SortedPolicies(st'.policies, site.listener) == SortedPolicies(st.policies, site.listener)
  {
    hide RolePolicy, RulesOk, PoolTreeOk, PolicyTreeOk, ViewPolicy;
    PolicyRewritten(env, st.policies, st.rules, site.listener, role, x, st'.policies[x]);
    SamePolicyKeys(st.policies, st'.policies, site.listener);
  }

  lemma SeenAfterDisable(env: Env, st: Store, st': Store, site: Site, i: int)
    requires TreeOk(env, st, site) && site.listener != "" && 0 <= i < |PoliciesSeen(env, st, site.listener)|
    requires var x := PoliciesSeen(env, st, site.listener)[i].id;
             x in st.policies && st' == st.(policies := st.policies[x := st.policies[x].(up := false)])
    ensures TreeOk(env, st', site)
    ensures var seen := PoliciesSeen(env, st, site.listener);
            PoliciesSeen(env, st', site.listener) == seen[i := seen[i].(policy := st'.policies[seen[i].id])]
  {
    hide RolePolicy, RoleRule, PoolTreeOk, PolicyTreeOk, PoliciesSeen, RulesSeen, RulesOk, SortedPolicies;
    SeenAt(env, st, site, i);
    var seen := PoliciesSeen(env, st, site.listener);
    SeenLength(env, st, site);
    SwitchedTree(env, st, st', site, seen[i].role, seen[i].id, false);
    SeenLength(env, st', site);
    var seen' := PoliciesSeen(env, st', site.listener);
    forall j | 0 <= j < |seen| ensures seen'[j] == seen[i := seen[i].(policy := st'.policies[seen[i].id])][j] {
      SeenAt(env, st, site, j);
      SeenAt(env, st', site, j);
    }
  }

  lemma ObservedRulesTail(own: Owner, rules: Rules, ids: seq<Id>)
    requires ids != [] && forall id :: id in ids ==> id in rules && RoleRule(own, rules[id].tags).Some?
    requires forall j :: 0 < j < |ids| ==> ids[j] != ids[0]
    ensures forall id :: id in ids[1..] ==> id in rules - {ids[0]} && (rules - {ids[0]})[id] == rules[id]
    ensures ObservedRules(own, rules - {ids[0]}, ids[1..]) == ObservedRules(own, rules, ids)[1..]
  {
    hide RoleRule;
    forall id | id in ids[1..] ensures id in ids && id != ids[0] {
      var j :| 0 <= j < |ids[1..]| && ids[1..][j] == id;
      assert ids[j + 1] == id;
    }
  }

  lemma RulesOkWithout(env: Env, rules: Rules, p: Id, r: Id)
    requires RulesOk(env, rules, p)
    ensures RulesOf(rules - {r}, p) == RulesOf(rules, p) - {r}
    ensures RulesOk(env, rules - {r}, p)
  {
    hide RoleRule, RuleOk;
  }

  lemma RulesSeenTail(env: Env, rules: Rules, p: Id)
    requires RulesOk(env, rules, p) && RulesOf(rules, p) != {}
    ensures var r := SortedIds(RulesOf(rules, p))[0];
            RulesOk(env, rules - {r}, p) && RulesSeen(env.own, rules, p)[0].id == r &&
            RulesSeen(env.own, rules - {r}, p) == RulesSeen(env.own, rules, p)[1..]
  {
    hide RoleRule;
    var ids := SortedIds(RulesOf(rules, p));
    RulesOkWithout(env, rules, p, ids[0]);
    SortedIdsTail(RulesOf(rules, p));
    ObservedRulesTail(env.own, rules, ids);
  }

  lemma RulesChangedTree(env: Env, st: Store, st': Store, site: Site, role: Role, p: Id, r: Id)
    requires TreeOk(env, st, site) && site.listener != "" && IsPolicyWith(env.own, st.policies, site.listener, role, p)
    requires r in RulesOf(st.rules, p) && st' == st.(rules := st.rules - {r}) && RulesOk(env, st'.rules, p)
    ensures TreeOk(env, st', site) && forall q :: q != p ==> SameRules(st.rules, st'.rules, q)
  {
    hide RolePolicy, RulesOk, PoolTreeOk, PolicyTreeOk, ViewPolicy;
    forall q | q != p ensures SameRules(st.rules, st'.rules, q) {
      assert RulesOf(st'.rules, q) == RulesOf(st.rules, q);
    }
    RulesChanged(env, st.policies, st.rules, st'.rules, site.listener, role, p);
  }

  lemma SeenAfterRuleDelete(env: Env, st: Store, st': Store, site: Site, i: int)
    requires TreeOk(env, st, site) && site.listener != "" && 0 <= i < |PoliciesSeen(env, st, site.listener)|
    requires var o := PoliciesSeen(env, st, site.listener)[i];
             o.rules != [] && st' == st.(rules := st.rules - {o.rules[0].id})
    ensures TreeOk(env, st', site)
    ensures var seen := PoliciesSeen(env, st, site.listener);
            PoliciesSeen(env, st', site.listener) == seen[i := seen[i].(rules := seen[i].rules[1..])]
  {
    hide RolePolicy, RoleRule, PoolTreeOk, PolicyTreeOk, RulesSeen, SameRules;
    SeenAt(env, st, site, i);
    var seen := PoliciesSeen(env, st, site.listener);
    var p := seen[i].id;
    RulesSeenRoles(env, st.rules, p);
    RulesSeenTail(env, st.rules, p);
    RulesChangedTree(env, st, st', site, seen[i].role, p, seen[i].rules[0].id);
    var seen' := PoliciesSeen(env, st', site.listener);
    forall j | 0 <= j < |seen| ensures seen'[j] == seen[i := seen[i].(rules := seen[i].rules[1..])][j] {
      SeenAt(env, st, site, j);
      SeenAt(env, st', site, j);
      if j != i {
        SortedDistinctAt(st, site, i, j);
        SameRulesSeen(env, st.rules, st'.rules, seen[j].id);
      }
      SameRole(env, st, st', site, j);
    }
  }

  lemma SortedDistinctAt(st: Store, site: Site, i: int, j: int)
    requires 0 <= i < |SortedPolicies(st.policies, site.listener)| && 0 <= j < |SortedPolicies(st.policies, site.listener)| && i != j
    ensures SortedPolicies(st.policies, site.listener)[i] != SortedPolicies(st.policies, site.listener)[j]
  {
  }

  lemma SameRulesSeen(env: Env, rules: Rules, rules': Rules, p: Id)
    requires RulesOk(env, rules, p) && RulesOk(env, rules', p) && SameRules(rules, rules', p)
    ensures RulesSeen(env.own, rules', p) == RulesSeen(env.own, rules, p)
  {
    hide RoleRule;
  }

  lemma SameRole(env: Env, st: Store, st': Store, site: Site, j: int)
    requires TreeOk(env, st, site) && TreeOk(env, st', site) && site.listener != "" && st'.policies == st.policies
    requires 0 <= j < |PoliciesSeen(env, st, site.listener)|
    ensures |PoliciesSeen(env, st', site.listener)| == |PoliciesSeen(env, st, site.listener)|
    ensures PoliciesSeen(env, st', site.listener)[j].role == PoliciesSeen(env, st, site.listener)[j].role
  {
    hide RolePolicy, RoleRule, PoolTreeOk;
  }

  lemma SeenAfterPolicyDelete(env: Env, st: Store, st': Store, site: Site)
    requires TreeOk(env, st, site) && site.listener != "" && PoliciesSeen(env, st, site.listener) != []
    requires st' == st.(policies := st.policies - {PoliciesSeen(env, st, site.listener)[0].id})
    ensures TreeOk(env, st', site)
    ensures PoliciesSeen(env, st', site.listener) == PoliciesSeen(env, st, site.listener)[1..]
  {
    hide RolePolicy, RoleRule, PoolTreeOk;
    var seen := PoliciesSeen(env, st, site.listener);
    SeenAt(env, st, site, 0);
    PolicyRemoved(env, st.policies, st.rules, site.listener, seen[0].role, seen[0].id);
    SortedPoliciesTail(st.policies, site.listener);
    var ids := SortedPolicies(st.policies, site.listener);
    var seen' := PoliciesSeen(env, st', site.listener);
    assert |seen'| == |ids| - 1;
    forall j | 0 <= j < |seen'| ensures seen'[j] == seen[j + 1] {
      assert seen'[j] == ObservePolicy(env.own, st'.policies, st.rules, ids[1..][j]);
      assert seen[j + 1] == ObservePolicy(env.own, st.policies, st.rules, ids[j + 1]);
    }
  }

  // ----- monitor, members and pool -----

  ghost function MemberListing(env: Env, members: Members, pool: Id): seq<ObservedMember>
  {
    ObservedMembers(env.net, members, SortedMembers(members, pool))
  }

  /** The pool part of the deletion plan in terms of the store. */
  ghost function PoolPart(env: Env, st: Store, lb: Id): seq<Mutation>
  {
    var p := PoolAt(st.pools, lb);
    if p.None? then []
    else
      var m := MonitorAt(st.monitors, p.value);
      (if m.Some? then [DeleteMonitor(m.value, p.value)] else []) +
      MemberDeletes(MemberListing(env, st.members, p.value), p.value) + [DeletePool(p.value)]
  }

  lemma PoolPartIs(env: Env, st: Store, site: Site)
    requires TreeOk(env, st, site)
    ensures PoolDeletes(GraphOf(env, st, site)) == PoolPart(env, st, site.loadBalancer)
  {
    hide PoolTreeOk, PolicyTreeOk, PoliciesSeen;
  }

  lemma MemberListingTail(env: Env, members: Members, pool: Id)
    requires MembersOf(members, pool) != {}
    ensures var x := SortedMembers(members, pool)[0];
            MemberListing(env, members - {x}, pool) == MemberListing(env, members, pool)[1..]
  {
    SortedMembersTail(members, pool);
  }

  /** One call on the pool part: what the three kinds of step share. */
  ghost predicate PoolPartAdvances(env: Env, st: Store, st': Store, site: Site)
    requires PoolPart(env, st, site.loadBalancer) != []
  {
    st' == st.(pools := st'.pools, members := st'.members, monitors := st'.monitors) && TreeOk(env, st', site) &&
    PoolPart(env, st', site.loadBalancer) == PoolPart(env, st, site.loadBalancer)[1..]
  }

  lemma MonitorGone(env: Env, st: Store, site: Site, p: Id, m: Id)
    requires TreeOk(env, st, site) && PoolAt(st.pools, site.loadBalancer) == Some(p) && MonitorAt(st.monitors, p) == Some(m)
    ensures PoolPart(env, st, site.loadBalancer)[0] == DeleteMonitor(m, p)
    ensures PoolPartAdvances(env, st, st.(monitors := st.monitors - {m}), site)
  {
    hide PolicyTreeOk, MembersOk, PoolOk, MonitorOk, MemberListing, MemberDeletes;
    TheOnlyPool(env, st, site, p);
    assert MonitorsOf(st.monitors, p) == {m};
    assert MonitorsOf(st.monitors - {m}, p) == {};
    var rest := MemberDeletes(MemberListing(env, st.members, p), p) + [DeletePool(p)];
    Assoc([DeleteMonitor(m, p)], MemberDeletes(MemberListing(env, st.members, p), p), [DeletePool(p)]);
    assert ([DeleteMonitor(m, p)] + rest)[1..] == rest;
  }

  lemma MemberGone(env: Env, st: Store, site: Site, p: Id)
    requires TreeOk(env, st, site) && PoolAt(st.pools, site.loadBalancer) == Some(p) && MonitorAt(st.monitors, p).None?
    requires MembersOf(st.members, p) != {}
    ensures var x := SortedMembers(st.members, p)[0];
            PoolPart(env, st, site.loadBalancer)[0] == DeleteMember(x, p) &&
            PoolPartAdvances(env, st, st.(members := st.members - {x}), site)
  {
    hide PolicyTreeOk, PoolOk, MemberOk, MonitorsOk, MemberText, MemberListing;
    TheOnlyPool(env, st, site, p);
    var x := SortedMembers(st.members, p)[0];
    var listing := MemberListing(env, st.members, p);
    MemberListingHead(env, st.members, p);
    MemberListingTail(env, st.members, p);
    MemberDeletesTail(listing, p);
    assert MembersOf(st.members - {x}, p) == MembersOf(st.members, p) - {x};
    assert MembersOk(env, st.members - {x}, p);
    var rest := MemberDeletes(listing, p);
    assert PoolPart(env, st, site.loadBalancer) == [] + rest + [DeletePool(p)];
    assert (rest + [DeletePool(p)])[1..] == rest[1..] + [DeletePool(p)];
  }

  lemma MemberListingHead(env: Env, members: Members, pool: Id)
    requires MembersOf(members, pool) != {}
    ensures MemberListing(env, members, pool) != []
    ensures MemberListing(env, members, pool)[0].id == SortedMembers(members, pool)[0]
  {
  }

  lemma PoolGone(env: Env, st: Store, site: Site, p: Id)
    requires TreeOk(env, st, site) && PoolAt(st.pools, site.loadBalancer) == Some(p) && MonitorAt(st.monitors, p).None?
    requires MembersOf(st.members, p) == {}
    ensures PoolPart(env, st, site.loadBalancer) == [DeletePool(p)]
    ensures PoolPartAdvances(env, st, st.(pools := st.pools - {p}), site)
  {
    hide PolicyTreeOk, PoolOk, MembersOk, MonitorsOk;
    TheOnlyPool(env, st, site, p);
    assert SortedMembers(st.members, p) == [];
    assert PoolsOf(st.pools - {p}, site.loadBalancer) == {};
  }

  lemma PoolPartTail(env: Env, d: Desired, st: Store, site: Site, id: Id)
    requires TreeOk(env, st, site) && PoolPart(env, st, site.loadBalancer) != []
    ensures PoolPartAdvances(env, st, Execute(env, d, site, st, PoolPart(env, st, site.loadBalancer)[0], id), site)
  {
    hide TreeOk, PoolPartAdvances;
    var p := PoolAt(st.pools, site.loadBalancer).value;
    var m := MonitorAt(st.monitors, p);
    if m.Some? {
      MonitorGone(env, st, site, p, m.value);
    } else if MembersOf(st.members, p) != {} {
      MemberGone(env, st, site, p);
    } else {
      PoolGone(env, st, site, p);
    }
  }

  lemma MemberDeletesTail(members: seq<ObservedMember>, pool: Id)
    requires members != []
    ensures MemberDeletes(members, pool)[1..] == MemberDeletes(members[1..], pool)
  {
  }

  // ----- the whole plan -----

  lemma Tail3(a: seq<Mutation>, b: seq<Mutation>, c: seq<Mutation>, e: seq<Mutation>)
    ensures a != [] ==> (a + b + c + e)[1..] == a[1..] + b + c + e && (a + b + c + e)[0] == a[0]
    ensures a == [] && b != [] ==> (a + b + c + e)[1..] == a + b[1..] + c + e && (a + b + c + e)[0] == b[0]
    ensures a == [] && b == [] && c != [] ==> (a + b + c + e)[1..] == a + b + c[1..] + e && (a + b + c + e)[0] == c[0]
    ensures a == [] && b == [] && c == [] ==> a + b + c + e == e
  {
  }

  lemma FirstEnabled(policies: seq<ObservedPolicy>) returns (i: int)
    requires DisableSteps(policies) != []
    ensures 0 <= i < |policies| && policies[i].policy.up && forall j :: 0 <= j < i ==> !policies[j].policy.up
  {
    DisableStepsSound(policies);
    i := 0;
    while !policies[i].policy.up
      invariant 0 <= i < |policies| && forall j :: 0 <= j < i ==> !policies[j].policy.up
      decreases |policies| - i
    {
      if i == |policies| - 1 {
        assert forall j :: 0 <= j < |policies| ==> !policies[j].policy.up;
      }
      i := i + 1;
    }
  }

  lemma FirstWithRules(policies: seq<ObservedPolicy>) returns (i: int)
    requires RuleDeletes(policies) != []
    ensures 0 <= i < |policies| && policies[i].rules != [] && forall j :: 0 <= j < i ==> policies[j].rules == []
  {
    NoRuleDeletes(policies);
    i := 0;
    while policies[i].rules == []
      invariant 0 <= i < |policies| && forall j :: 0 <= j < i ==> policies[j].rules == []
      decreases |policies| - i
    {
      if i == |policies| - 1 {
        assert forall j :: 0 <= j < |policies| ==> policies[j].rules == [];
      }
      i := i + 1;
    }
  }

  ghost function PolicyDeletionPart(seen: seq<ObservedPolicy>): seq<Mutation>
  {
    DisableSteps(seen) + RuleDeletes(seen) + PolicyDeletes(seen)
  }

  ghost predicate PolicyPartAdvances(env: Env, st: Store, st': Store, site: Site)
    requires TreeOk(env, st, site) && PolicyDeletionPart(PoliciesSeen(env, st, site.listener)) != []
  {
    st' == st.(policies := st'.policies, rules := st'.rules) && TreeOk(env, st', site) &&
    PolicyDeletionPart(PoliciesSeen(env, st', site.listener)) == PolicyDeletionPart(PoliciesSeen(env, st, site.listener))[1..]
  }

  lemma DisablingAdvances(env: Env, st: Store, site: Site, i: int)
    requires TreeOk(env, st, site) && site.listener != ""
    requires var seen := PoliciesSeen(env, st, site.listener);
             0 <= i < |seen| && seen[i].policy.up && forall j :: 0 <= j < i ==> !seen[j].policy.up
    ensures var x := PoliciesSeen(env, st, site.listener)[i].id;
            x in st.policies && PolicyDeletionPart(PoliciesSeen(env, st, site.listener)) != [] &&
            PolicyDeletionPart(PoliciesSeen(env, st, site.listener))[0] == DisablePolicy(x) &&
            PolicyPartAdvances(env, st, st.(policies := st.policies[x := st.policies[x].(up := false)]), site)
  {
    hide PoolTreeOk, PolicyTreeOk, PoliciesSeen, PolicyDeletionPart, RulesOk;
    var seen := PoliciesSeen(env, st, site.listener);
    SeenAt(env, st, site, i);
    var x := seen[i].id;
    DisablingTail(seen, i, seen[i].(policy := st.policies[x].(up := false)));
    SeenAfterDisable(env, st, st.(policies := st.policies[x := st.policies[x].(up := false)]), site, i);
  }

  lemma DisablingTail(seen: seq<ObservedPolicy>, i: int, o: ObservedPolicy)
    requires 0 <= i < |seen| && seen[i].policy.up && forall j :: 0 <= j < i ==> !seen[j].policy.up
    requires !o.policy.up && o.id == seen[i].id && o.rules == seen[i].rules
    ensures PolicyDeletionPart(seen) != [] && PolicyDeletionPart(seen)[0] == DisablePolicy(seen[i].id)
    ensures PolicyDeletionPart(seen[i := o]) == PolicyDeletionPart(seen)[1..]
  {
    hide DisableSteps, RuleDeletes;
    DisableFirst(seen, i, o);
    RuleDeletesSame(seen, seen[i := o]);
    assert PolicyDeletes(seen[i := o]) == PolicyDeletes(seen);
    Tail3(DisableSteps(seen), RuleDeletes(seen), PolicyDeletes(seen), []);
  }

  lemma RuleDeletionAdvances(env: Env, st: Store, site: Site, i: int)
    requires TreeOk(env, st, site) && site.listener != ""
    requires var seen := PoliciesSeen(env, st, site.listener);
             DisableSteps(seen) == [] && 0 <= i < |seen| && seen[i].rules != [] && forall j :: 0 <= j < i ==> seen[j].rules == []
    ensures var o := PoliciesSeen(env, st, site.listener)[i];
            PolicyDeletionPart(PoliciesSeen(env, st, site.listener)) != [] &&
            PolicyDeletionPart(PoliciesSeen(env, st, site.listener))[0] == DeleteRule(o.rules[0].id, o.id) &&
            PolicyPartAdvances(env, st, st.(rules := st.rules - {o.rules[0].id}), site)
  {
    hide PoolTreeOk, PolicyTreeOk, PoliciesSeen, DisableSteps, RuleDeletes;
    var seen := PoliciesSeen(env, st, site.listener);
    var o := seen[i].(rules := seen[i].rules[1..]);
    RuleDeletesFirst(seen, i, o);
    SeenAfterRuleDelete(env, st, st.(rules := st.rules - {seen[i].rules[0].id}), site, i);
    StillDark(seen, i, o);
    assert PolicyDeletes(seen[i := o]) == PolicyDeletes(seen);
    Tail3(DisableSteps(seen), RuleDeletes(seen), PolicyDeletes(seen), []);
  }

  lemma PolicyDeletionAdvances(env: Env, st: Store, site: Site)
    requires TreeOk(env, st, site) && site.listener != ""
    requires var seen := PoliciesSeen(env, st, site.listener);
             seen != [] && DisableSteps(seen) == [] && RuleDeletes(seen) == []
    ensures var x := PoliciesSeen(env, st, site.listener)[0].id;
            PolicyDeletionPart(PoliciesSeen(env, st, site.listener)) != [] &&
            PolicyDeletionPart(PoliciesSeen(env, st, site.listener))[0] == DeletePolicy(x) &&
            PolicyPartAdvances(env, st, st.(policies := st.policies - {x}), site)
  {
    hide PoolTreeOk, PolicyTreeOk, PoliciesSeen, DisableSteps, RuleDeletes;
    var seen := PoliciesSeen(env, st, site.listener);
    SeenAfterPolicyDelete(env, st, st.(policies := st.policies - {seen[0].id}), site);
    NoRuleDeletes(seen);
    NoRuleDeletes(seen[1..]);
    DisableStepsSound(seen);
    DisableStepsSound(seen[1..]);
    assert PolicyDeletes(seen[1..]) == PolicyDeletes(seen)[1..];
  }

  /** While policies remain, one call removes the head of their part of the plan. */
  lemma PolicyPartTail(env: Env, d: Desired, st: Store, site: Site, id: Id)
    requires TreeOk(env, st, site) && PoliciesSeen(env, st, site.listener) != []
    ensures PolicyDeletionPart(PoliciesSeen(env, st, site.listener)) != []
    ensures PolicyPartAdvances(
              env, st, Execute(env, d, site, st, PolicyDeletionPart(PoliciesSeen(env, st, site.listener))[0], id), site)
  {
    hide PoolTreeOk, PolicyTreeOk, PoliciesSeen, DisableSteps, RuleDeletes, PolicyPartAdvances, PolicyDeletionPart;
    ListenerThere(env, st, site);
    var seen := PoliciesSeen(env, st, site.listener);
    if DisableSteps(seen) != [] {
      var i := FirstEnabled(seen);
      DisablingAdvances(env, st, site, i);
    } else if RuleDeletes(seen) != [] {
      var i := FirstWithRules(seen);
      RuleDeletionAdvances(env, st, site, i);
    } else {
      PolicyDeletionAdvances(env, st, site);
    }
  }

  lemma StillDark(policies: seq<ObservedPolicy>, i: int, o: ObservedPolicy)
    requires DisableSteps(policies) == [] && 0 <= i < |policies| && o.policy == policies[i].policy
    ensures DisableSteps(policies[i := o]) == []
  {
    DisableStepsSound(policies);
    DisableStepsSound(policies[i := o]);
  }

  lemma ListenerThere(env: Env, st: Store, site: Site)
    requires TreeOk(env, st, site) && PoliciesSeen(env, st, site.listener) != []
    ensures site.listener != ""
  {
  }

  /** Executing the head of the deletion plan and observing again gives exactly
      the tail of the plan. */
  lemma DeletionTail(env: Env, d: Desired, st: Store, site: Site, id: Id)
    requires TreeOk(env, st, site) && DeletionPlan(GraphOf(env, st, site)) != []
    ensures var plan := DeletionPlan(GraphOf(env, st, site));
            var st' := Execute(env, d, site, st, plan[0], id);
            TreeOk(env, st', site) && DeletionPlan(GraphOf(env, st', site)) == plan[1..]
  {
    hide PoolTreeOk, PolicyTreeOk, PoliciesSeen, PolicyDeletionPart, PoolPart, DeletionPlan, GraphOf, Execute;
    var plan := DeletionPlan(GraphOf(env, st, site));
    var st' := Execute(env, d, site, st, plan[0], id);
    var seen := PoliciesSeen(env, st, site.listener);
    var part, rest := PolicyDeletionPart(seen), PoolPart(env, st, site.loadBalancer);
    PlanParts(env, st, site);
    if seen != [] {
      PolicyPartTail(env, d, st, site, id);
      assert (part + rest)[1..] == part[1..] + rest;
      SamePoolPart(env, st, st', site);
    } else {
      EmptyParts(seen);
      PoolPartTail(env, d, st, site, id);
      SameSeen(env, st, st', site);
    }
    PlanParts(env, st', site);
  }

  lemma PlanParts(env: Env, st: Store, site: Site)
    requires TreeOk(env, st, site)
    ensures DeletionPlan(GraphOf(env, st, site)) ==
            PolicyDeletionPart(PoliciesSeen(env, st, site.listener)) + PoolPart(env, st, site.loadBalancer)
  {
    hide PoolTreeOk, PolicyTreeOk, PoliciesSeen, DisableSteps, RuleDeletes, PoolPart, PoolDeletes;
    PoolPartIs(env, st, site);
  }

  lemma EmptyParts(seen: seq<ObservedPolicy>)
    requires seen == []
    ensures PolicyDeletionPart(seen) == []
  {
  }

  lemma SamePoolPart(env: Env, st: Store, st': Store, site: Site)
    requires st' == st.(policies := st'.policies, rules := st'.rules)
    ensures PoolPart(env, st', site.loadBalancer) == PoolPart(env, st, site.loadBalancer)
  {
  }

  lemma SameSeen(env: Env, st: Store, st': Store, site: Site)
    requires st' == st.(pools := st'.pools, members := st'.members, monitors := st'.monitors)
    requires TreeOk(env, st, site) && TreeOk(env, st', site)
    ensures PoliciesSeen(env, st', site.listener) == PoliciesSeen(env, st, site.listener)
  {
  }

  // ----- whole deletion runs -----

  /** A deletion runs without a desired route. */
  const NO_ROUTE: Desired :=
    Desired(RouteSpec("", "", "", "", "", 0, "", "", "", OtherMatch(""), "", []), [], "", [])

  /** One DeleteRoute call on an active load balancer. */
  ghost function DeleteStep(env: Env, site: Site, st: Store): Store
  {
    if !TreeOk(env, st, site) || DeletionPlan(GraphOf(env, st, site)) == [] then st
    else Execute(env, NO_ROUTE, site, st, DeletionPlan(GraphOf(env, st, site))[0], "")
  }

  ghost function DeleteSteps(env: Env, site: Site, st: Store, n: nat): Store
    decreases n
  {
    if n == 0 then st else DeleteSteps(env, site, DeleteStep(env, site, st), n - 1)
  }

  ghost predicate NoRouteResources(st: Store, site: Site)
  {
    PoolsOf(st.pools, site.loadBalancer) == {} && (site.listener != "" ==> PoliciesOf(st.policies, site.listener) == {})
  }

  lemma EmptyDeletionPlan(env: Env, st: Store, site: Site)
    requires TreeOk(env, st, site)
    ensures DeletionPlan(GraphOf(env, st, site)) == [] <==> NoRouteResources(st, site)
  {
    hide PoolTreeOk, PolicyTreeOk, DisableSteps, RuleDeletes, DeletionPlan, GraphOf;
    PlanParts(env, st, site);
    if PoliciesSeen(env, st, site.listener) == [] {
      EmptyParts(PoliciesSeen(env, st, site.listener));
    }
  }

  /** Deletion needs exactly as many calls as its plan is long: after k calls
      the next plan is the old one without its first k steps, and at the end no
      route resource is left. */
  lemma {:induction false} DeletionRun(env: Env, st: Store, site: Site, k: nat)
    requires TreeOk(env, st, site) && k <= |DeletionPlan(GraphOf(env, st, site))|
    ensures var st' := DeleteSteps(env, site, st, k);
            TreeOk(env, st', site) && DeletionPlan(GraphOf(env, st', site)) == DeletionPlan(GraphOf(env, st, site))[k..] &&
            (k == |DeletionPlan(GraphOf(env, st, site))| <==> NoRouteResources(st', site))
    decreases k
  {
    hide TreeOk, DeletionPlan, GraphOf, Execute;
    if k == 0 {
      EmptyDeletionPlan(env, st, site);
    } else {
      DeletionTail(env, NO_ROUTE, st, site, "");
      DeletionRun(env, DeleteStep(env, site, st), site, k - 1);
    }
  }

  // ----- only leaves are removed -----

  /** Octavia lets a policy redirect only to a pool of its own load balancer. */
  ghost predicate RedirectsLocal(st: Store)
  {
    forall q :: q in st.policies && st.policies[q].redirectPool in st.pools ==>
      st.policies[q].parent in st.listeners &&
      st.listeners[st.policies[q].parent].parent == st.pools[st.policies[q].redirectPool].parent
  }

  ghost predicate OnlyListener(st: Store, site: Site)
  {
    "" !in st.listeners && forall l :: l in st.listeners && st.listeners[l].parent == site.loadBalancer ==> l == site.listener
  }

  ghost predicate RemovesLeaf(st: Store, site: Site, m: Mutation)
  {
    match m
    case DisablePolicy(p) => site.listener != "" && p in PoliciesOf(st.policies, site.listener) && st.policies[p].up
    case DeleteRule(r, p) =>
      site.listener != "" && r in RulesOf(st.rules, p) && p in PoliciesOf(st.policies, site.listener) && !st.policies[p].up
    case DeletePolicy(p) =>
      site.listener != "" && p in PoliciesOf(st.policies, site.listener) && !st.policies[p].up && RulesOf(st.rules, p) == {}
    case DeleteMonitor(x, p) => x in MonitorsOf(st.monitors, p) && p in PoolsOf(st.pools, site.loadBalancer)
    case DeleteMember(x, p) => x in MembersOf(st.members, p) && p in PoolsOf(st.pools, site.loadBalancer)
    case DeletePool(p) =>
      p in PoolsOf(st.pools, site.loadBalancer) && MembersOf(st.members, p) == {} && MonitorsOf(st.monitors, p) == {} &&
      (site.listener == "" || PoliciesOf(st.policies, site.listener) == {})
    case _ => false
  }

  /** The first step while policies remain: one disables a policy, one deletes a
      rule of a disabled policy, or one deletes a disabled policy without rules. */
  ghost predicate PolicyLeaf(st: Store, site: Site, m: Mutation)
  {
    RemovesLeaf(st, site, m) && (m.DisablePolicy? || m.DeleteRule? || m.DeletePolicy?)
  }

  lemma DarkAt(seen: seq<ObservedPolicy>, i: int)
    requires DisableSteps(seen) == [] && 0 <= i < |seen|
    ensures !seen[i].policy.up
  {
    DisableStepsSound(seen);
  }

  lemma RulesBelow(env: Env, st: Store, p: Id)
    requires RulesOk(env, st.rules, p)
    ensures RulesSeen(env.own, st.rules, p) == [] <==> RulesOf(st.rules, p) == {}
    ensures RulesSeen(env.own, st.rules, p) != [] ==> RulesSeen(env.own, st.rules, p)[0].id in RulesOf(st.rules, p)
  {
  }

  lemma PolicyPartLeaf(env: Env, st: Store, site: Site)
    requires TreeOk(env, st, site) && PoliciesSeen(env, st, site.listener) != []
    ensures PolicyDeletionPart(PoliciesSeen(env, st, site.listener)) != []
    ensures PolicyLeaf(st, site, PolicyDeletionPart(PoliciesSeen(env, st, site.listener))[0])
  {
    hide PoolTreeOk, PolicyTreeOk, PoliciesSeen, DisableSteps, RuleDeletes, PolicyPartAdvances, PolicyDeletionPart,
         RulesOk, RulesSeen, RolePolicy;
    ListenerThere(env, st, site);
    var seen := PoliciesSeen(env, st, site.listener);
    NoRuleDeletes(seen);
    if DisableSteps(seen) != [] {
      var i := FirstEnabled(seen);
      DisablingAdvances(env, st, site, i);
      SeenAt(env, st, site, i);
    } else if RuleDeletes(seen) != [] {
      var i := FirstWithRules(seen);
      RuleDeletionAdvances(env, st, site, i);
      SeenAt(env, st, site, i);
      DarkAt(seen, i);
      RulesBelow(env, st, seen[i].id);
    } else {
      PolicyDeletionAdvances(env, st, site);
      SeenAt(env, st, site, 0);
      DarkAt(seen, 0);
      RulesBelow(env, st, seen[0].id);
    }
  }

  lemma PoolPartLeaf(env: Env, st: Store, site: Site)
    requires TreeOk(env, st, site) && PoolPart(env, st, site.loadBalancer) != []
    requires site.listener == "" || PoliciesOf(st.policies, site.listener) == {}
    ensures RemovesLeaf(st, site, PoolPart(env, st, site.loadBalancer)[0])
  {
    hide PoolTreeOk, PolicyTreeOk, PoolPartAdvances, PoolPart;
    var p := PoolPartPool(env, st, site);
    var m := MonitorAt(st.monitors, p);
    if m.Some? {
      MonitorGone(env, st, site, p, m.value);
    } else if MembersOf(st.members, p) != {} {
      MemberGone(env, st, site, p);
    } else {
      PoolGone(env, st, site, p);
    }
  }

  lemma PoolPartPool(env: Env, st: Store, site: Site) returns (p: Id)
    requires PoolPart(env, st, site.loadBalancer) != []
    ensures PoolAt(st.pools, site.loadBalancer) == Some(p)
  {
    p := PoolAt(st.pools, site.loadBalancer).value;
  }

  /** Every resource the plan removes is a leaf: a rule or policy only while its
      policy is disabled, a policy only without rules, and the pool only without
      members, monitor and policies on the listener. */
  lemma DeletionRemovesLeaves(env: Env, st: Store, site: Site)
    requires TreeOk(env, st, site) && DeletionPlan(GraphOf(env, st, site)) != []
    ensures RemovesLeaf(st, site, DeletionPlan(GraphOf(env, st, site))[0])
  {
    hide PoolTreeOk, PolicyTreeOk, PolicyDeletionPart, PoolPart, DeletionPlan, GraphOf, RemovesLeaf;
    PlanParts(env, st, site);
    var seen := PoliciesSeen(env, st, site.listener);
    if seen != [] {
      PolicyPartLeaf(env, st, site);
    } else {
      EmptyParts(seen);
      PoolPartLeaf(env, st, site);
    }
  }

  /** A pool that goes is the target of no policy anywhere. */
  lemma DeletedPoolUnreferenced(st: Store, site: Site, p: Id, q: Id)
    requires RemovesLeaf(st, site, DeletePool(p)) && RedirectsLocal(st) && OnlyListener(st, site) && q in st.policies
    ensures st.policies[q].redirectPool != p
  {
    if site.listener != "" {
      assert q !in PoliciesOf(st.policies, site.listener);
    }
  }
}
