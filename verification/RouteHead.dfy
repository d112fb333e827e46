/** The head of an ensure plan is always a justified mutation, and the plan is
    empty exactly when nothing differs. */
module RouteHead {
  import opened Ownership
  import opened Octavia
  import opened RouteModel
  import opened RouteTree
  import opened RoutePlan
  import opened RouteSteps
  import opened PolicyViews
  import opened RouteProgress

  // ----- members -----

  ghost predicate MemberStepOk(
    net: Net, subnet: string, m: ObservedMember, all: map<string, Endpoint>, pool: Id, s: Mutation)
  {
    (s == DeleteMember(m.id, pool) && !Kept(net, subnet, m, all)) ||
    (s == UpdateMember(m.id, pool) && Kept(net, subnet, m, all) && !m.member.up)
  }

  predicate TextsDistinct(net: Net, ms: seq<ObservedMember>)
  {
    forall i, j :: 0 <= i < j < |ms| ==> ObservedText(net, ms[i]) != ObservedText(net, ms[j])
  }

  /** While scanning, an endpoint not yet used up by an earlier member is wanted
      exactly when the route wants it. */
  ghost predicate Unused(net: Net, ms: seq<ObservedMember>, all: map<string, Endpoint>, wanted: map<string, Endpoint>)
  {
    forall i :: 0 <= i < |ms| ==> (ObservedText(net, ms[i]) in wanted <==> ObservedText(net, ms[i]) in all)
  }

  lemma UnusedTail(
    net: Net, subnet: string, ms: seq<ObservedMember>, all: map<string, Endpoint>, wanted: map<string, Endpoint>)
    requires ms != [] && TextsDistinct(net, ms) && Unused(net, ms, all, wanted)
    ensures TextsDistinct(net, ms[1..]) && Unused(net, ms[1..], all, StillWanted(net, subnet, ms[0], wanted))
  {
    forall i | 0 <= i < |ms[1..]| ensures ms[1..][i] == ms[i + 1] && ObservedText(net, ms[0]) != ObservedText(net, ms[i + 1]) {
    }
  }

  lemma {:induction false} MemberStepsSound(
    net: Net, subnet: string, ms: seq<ObservedMember>, all: map<string, Endpoint>, wanted: map<string, Endpoint>, pool: Id)
    requires TextsDistinct(net, ms) && Unused(net, ms, all, wanted)
    ensures forall s :: s in MemberSteps(net, subnet, ms, wanted, pool) ==>
              exists i :: 0 <= i < |ms| && MemberStepOk(net, subnet, ms[i], all, pool, s)
    ensures MemberSteps(net, subnet, ms, wanted, pool) == [] <==>
            forall i :: 0 <= i < |ms| ==> Kept(net, subnet, ms[i], all) && ms[i].member.up
  {
    if ms != [] {
      var rest := StillWanted(net, subnet, ms[0], wanted);
      UnusedTail(net, subnet, ms, all, wanted);
      MemberStepsSound(net, subnet, ms[1..], all, rest, pool);
      forall s | s in MemberSteps(net, subnet, ms, wanted, pool)
        ensures exists i :: 0 <= i < |ms| && MemberStepOk(net, subnet, ms[i], all, pool, s)
      {
        if s in OneMemberStep(net, subnet, ms[0], wanted, pool) {
          assert MemberStepOk(net, subnet, ms[0], all, pool, s);
        } else {
          var i :| 0 <= i < |ms[1..]| && MemberStepOk(net, subnet, ms[1..][i], all, pool, s);
          assert ms[1..][i] == ms[i + 1];
        }
      }
      assert forall i :: 0 <= i < |ms[1..]| ==> ms[1..][i] == ms[i + 1];
      if forall i :: 0 <= i < |ms[1..]| ==> Kept(net, subnet, ms[1..][i], all) && ms[1..][i].member.up {
        forall i | 1 <= i < |ms| ensures Kept(net, subnet, ms[i], all) && ms[i].member.up {
          assert ms[i] == ms[1..][i - 1];
        }
      }
    }
  }

  lemma {:induction false} MembersLeftSound(
    net: Net, subnet: string, ms: seq<ObservedMember>, all: map<string, Endpoint>, wanted: map<string, Endpoint>)
    requires TextsDistinct(net, ms) && Unused(net, ms, all, wanted)
    ensures forall k :: k in MembersLeft(net, subnet, ms, wanted) <==>
              k in wanted && forall i :: 0 <= i < |ms| && Kept(net, subnet, ms[i], all) ==> ObservedText(net, ms[i]) != k
    ensures forall k :: k in MembersLeft(net, subnet, ms, wanted) ==> k in wanted && MembersLeft(net, subnet, ms, wanted)[k] == wanted[k]
  {
    if ms != [] {
      var rest := StillWanted(net, subnet, ms[0], wanted);
      UnusedTail(net, subnet, ms, all, wanted);
      MembersLeftSound(net, subnet, ms[1..], all, rest);
      forall k ensures k in MembersLeft(net, subnet, ms, wanted) <==>
        k in wanted && forall i :: 0 <= i < |ms| && Kept(net, subnet, ms[i], all) ==> ObservedText(net, ms[i]) != k
      {
        assert forall i :: 0 <= i < |ms[1..]| ==> ms[1..][i] == ms[i + 1];
        assert k in rest <==> k in wanted && (Kept(net, subnet, ms[0], all) ==> ObservedText(net, ms[0]) != k);
        if k in rest && forall i :: 0 <= i < |ms[1..]| && Kept(net, subnet, ms[1..][i], all) ==> ObservedText(net, ms[1..][i]) != k {
          forall i | 1 <= i < |ms| && Kept(net, subnet, ms[i], all) ensures ObservedText(net, ms[i]) != k {
            assert ms[i] == ms[1..][i - 1];
          }
        }
      }
    }
  }

  /** The observed members are the store's members beneath the pool. */
  lemma MembersSeen(env: Env, d: Desired, members: Members, pool: Id, ms: seq<ObservedMember>)
    requires LawfulNet(env.net) && MembersOk(env, members, pool)
    requires ms == ObservedMembers(env.net, members, SortedMembers(members, pool))
    ensures TextsDistinct(env.net, ms)
    ensures forall i :: 0 <= i < |ms| ==>
              ms[i].id in MembersOf(members, pool) && ms[i].member.up == members[ms[i].id].up &&
              ObservedText(env.net, ms[i]) == MemberText(env.net, members[ms[i].id]) &&
              (Kept(env.net, d.spec.memberSubnet, ms[i], ByKey(env.net, d.members)) <==> !Stale(env, d, members[ms[i].id]))
    ensures forall m :: m in MembersOf(members, pool) ==> exists i :: 0 <= i < |ms| && ms[i].id == m
  {
    hide ByKey, MemberOk;
    var ids := SortedMembers(members, pool);
    forall m | m in MembersOf(members, pool) ensures exists i :: 0 <= i < |ms| && ms[i].id == m {
      var i :| 0 <= i < |ids| && ids[i] == m;
      assert ms[i].id == m;
    }
    forall i | 0 <= i < |ms| ensures ObservedText(env.net, ms[i]) == MemberText(env.net, members[ms[i].id]) {
      assert ms[i] == ObserveMember(env.net, members, ids[i]);
    }
  }

  lemma MemberPlanJustified(env: Env, d: Desired, members: Members, pool: Id, ms: seq<ObservedMember>, s: Mutation)
    requires LawfulNet(env.net) && MembersOk(env, members, pool)
    requires ms == ObservedMembers(env.net, members, SortedMembers(members, pool))
    requires s in MemberSteps(env.net, d.spec.memberSubnet, ms, ByKey(env.net, d.members), pool)
    ensures (s.DeleteMember? && s.parent == pool && s.id in StaleMembers(env, d, members, pool)) ||
            (s.UpdateMember? && s.parent == pool && s.id in DownMembers(env, d, members, pool))
  {
    hide ByKey, MemberOk, Kept, Stale, MemberText, ObservedText, MembersOk, MemberSteps, LawfulNet;
    var wanted := ByKey(env.net, d.members);
    var subnet := d.spec.memberSubnet;
    MembersSeen(env, d, members, pool, ms);
    MemberStepsSound(env.net, subnet, ms, wanted, wanted, pool);
    var i :| 0 <= i < |ms| && MemberStepOk(env.net, subnet, ms[i], wanted, pool, s);
  }

  lemma MemberPlanEmpty(env: Env, d: Desired, members: Members, pool: Id, ms: seq<ObservedMember>)
    requires LawfulNet(env.net) && MembersOk(env, members, pool)
    requires ms == ObservedMembers(env.net, members, SortedMembers(members, pool))
    ensures MemberSteps(env.net, d.spec.memberSubnet, ms, ByKey(env.net, d.members), pool) == [] <==>
            StaleMembers(env, d, members, pool) == {} && DownMembers(env, d, members, pool) == {}
  {
    hide ByKey, MemberOk, Kept, Stale, MemberText, ObservedText, MembersOk, MemberSteps, LawfulNet, MemberStepOk;
    var wanted := ByKey(env.net, d.members);
    var subnet := d.spec.memberSubnet;
    MembersSeen(env, d, members, pool, ms);
    MemberStepsSound(env.net, subnet, ms, wanted, wanted, pool);
    if forall i :: 0 <= i < |ms| ==> Kept(env.net, subnet, ms[i], wanted) && ms[i].member.up {
      forall m | m in MembersOf(members, pool) ensures !Stale(env, d, members[m]) && members[m].up {
        var i :| 0 <= i < |ms| && ms[i].id == m;
      }
    } else {
      var i :| 0 <= i < |ms| && !(Kept(env.net, subnet, ms[i], wanted) && ms[i].member.up);
      assert ms[i].id in StaleMembers(env, d, members, pool) || ms[i].id in DownMembers(env, d, members, pool);
    }
  }

  lemma CreatePlanHead(env: Env, d: Desired, members: Members, pool: Id, ms: seq<ObservedMember>)
    requires LawfulNet(env.net) && MembersOk(env, members, pool)
    requires ms == ObservedMembers(env.net, members, SortedMembers(members, pool))
    ensures var wanted := ByKey(env.net, d.members);
            var left := MembersLeft(env.net, d.spec.memberSubnet, ms, wanted);
            left.Keys == MissingKeys(env, d, members, pool) && forall k :: k in left ==> k in wanted && left[k] == wanted[k]
  {
    hide ByKey, MemberOk, Kept, Stale, MemberText, ObservedText;
    var wanted := ByKey(env.net, d.members);
    var subnet := d.spec.memberSubnet;
    MembersSeen(env, d, members, pool, ms);
    MembersLeftSound(env.net, subnet, ms, wanted, wanted);
    forall k ensures Covered(env, d, members, pool, k) <==>
      exists i :: 0 <= i < |ms| && Kept(env.net, subnet, ms[i], wanted) && ObservedText(env.net, ms[i]) == k
    {
      if Covered(env, d, members, pool, k) {
        var m :| m in MembersOf(members, pool) && !Stale(env, d, members[m]) && MemberText(env.net, members[m]) == k;
        var i :| 0 <= i < |ms| && ms[i].id == m;
      }
    }
  }

  lemma PartsHead(
    env: Env, d: Desired, st: Store, site: Site, p: Id, update: seq<Mutation>, steps: seq<Mutation>, creates: seq<Mutation>,
    monitor: seq<Mutation>)
    requires PoolAt(st.pools, site.loadBalancer) == Some(p)
    requires update == if PoolSettled(st.pools[p]) then [] else [UpdatePool(p)]
    requires steps != [] ==> JustifiedPoolStep(env, d, st, site, steps[0])
    requires steps == [] <==> StaleMembers(env, d, st.members, p) == {} && DownMembers(env, d, st.members, p) == {}
    requires creates != [] && steps == [] ==> JustifiedPoolStep(env, d, st, site, creates[0])
    requires creates == [] <==> MissingKeys(env, d, st.members, p) == {}
    requires monitor != [] ==> JustifiedPoolStep(env, d, st, site, monitor[0])
    requires monitor == [] <==> MonitorCost(d, st.monitors, p) == 0
    ensures var plan := update + steps + creates + monitor;
            (plan == [] <==> NonPolicyDiff(env, d, st, site) == 0) &&
            (plan != [] ==> JustifiedPoolStep(env, d, st, site, plan[0]))
  {
    hide StaleMembers, DownMembers, MissingKeys, MonitorCost;
    HeadOfFour(update, steps, creates, monitor);
  }

  lemma MemberHead(env: Env, d: Desired, st: Store, site: Site, pool: Id, ms: seq<ObservedMember>)
    requires LawfulNet(env.net) && PoolAt(st.pools, site.loadBalancer) == Some(pool) && MembersOk(env, st.members, pool)
    requires ms == ObservedMembers(env.net, st.members, SortedMembers(st.members, pool))
    ensures var steps := MemberSteps(env.net, d.spec.memberSubnet, ms, ByKey(env.net, d.members), pool);
            (steps != [] ==> JustifiedPoolStep(env, d, st, site, steps[0])) &&
            (steps == [] <==> StaleMembers(env, d, st.members, pool) == {} && DownMembers(env, d, st.members, pool) == {})
  {
    hide ByKey, MembersOk, MemberSteps, LawfulNet, StaleMembers, DownMembers;
    var steps := MemberSteps(env.net, d.spec.memberSubnet, ms, ByKey(env.net, d.members), pool);
    if steps != [] {
      MemberPlanJustified(env, d, st.members, pool, ms, steps[0]);
    }
    MemberPlanEmpty(env, d, st.members, pool, ms);
  }

  lemma CreateHead(env: Env, d: Desired, st: Store, site: Site, pool: Id, ms: seq<ObservedMember>)
    requires LawfulNet(env.net) && PoolAt(st.pools, site.loadBalancer) == Some(pool) && MembersOk(env, st.members, pool)
    requires ms == ObservedMembers(env.net, st.members, SortedMembers(st.members, pool))
    ensures var left := MembersLeft(env.net, d.spec.memberSubnet, ms, ByKey(env.net, d.members));
            var creates := CreateMembers(left, SortedIds(left.Keys), pool);
            (creates != [] && StaleMembers(env, d, st.members, pool) == {} ==>
              JustifiedPoolStep(env, d, st, site, creates[0])) &&
            (creates == [] <==> MissingKeys(env, d, st.members, pool) == {})
  {
    hide ByKey, MembersOk, MembersLeft, LawfulNet, StaleMembers, MissingKeys;
    var wanted := ByKey(env.net, d.members);
    var left := MembersLeft(env.net, d.spec.memberSubnet, ms, wanted);
    CreatePlanHead(env, d, st.members, pool, ms);
    ByKeyElements(env.net, d.members);
    if left.Keys != {} {
      var k := SortedIds(left.Keys)[0];
      assert k in left && left[k] == wanted[k];
    }
  }

  lemma MonitorHead(env: Env, d: Desired, st: Store, site: Site, pool: Id, monitor: Option<ObservedMonitor>)
    requires PoolAt(st.pools, site.loadBalancer) == Some(pool)
    requires var m := MonitorAt(st.monitors, pool);
             monitor == if m.None? then None else Some(ObservedMonitor(m.value, st.monitors[m.value]))
    ensures var steps := MonitorSteps(d, monitor, pool);
            (steps != [] ==> JustifiedPoolStep(env, d, st, site, steps[0])) &&
            (steps == [] <==> MonitorCost(d, st.monitors, pool) == 0)
  {
    hide MonitorSettled;
  }

  /** The plan outside the policies: its head is justified, and it is empty
      exactly when nothing there differs. */
  lemma NonPolicyHead(env: Env, d: Desired, st: Store, site: Site, plan: seq<Mutation>)
    requires LawfulNet(env.net) && TreeOk(env, st, site)
    requires NonPolicyPlan(env.net, d, GraphOf(env, st, site)) == Some(plan)
    ensures plan == [] <==> NonPolicyDiff(env, d, st, site) == 0
    ensures plan != [] ==> JustifiedPoolStep(env, d, st, site, plan[0])
  {
    hide PolicyTreeOk, ByKey, MembersOk, MonitorsOk, MonitorSteps, PoliciesSeen, MemberSteps, MembersLeft, LawfulNet,
         StaleMembers, DownMembers, MissingKeys, NonPolicyDiff;
    var g := GraphOf(env, st, site);
    if g.pool.None? {
      NoPool(env, d, st, site);
    } else {
      var pool := g.pool.value.id;
      assert MembersOk(env, st.members, pool);
      var wanted := ByKey(env.net, d.members);
      var left := MembersLeft(env.net, d.spec.memberSubnet, g.members, wanted);
      MemberHead(env, d, st, site, pool, g.members);
      CreateHead(env, d, st, site, pool, g.members);
      MonitorHead(env, d, st, site, pool, g.monitor);
      hide JustifiedPoolStep;
      PartsHead(env, d, st, site, pool, if PoolSettled(g.pool.value.pool) then [] else [UpdatePool(pool)],
                MemberSteps(env.net, d.spec.memberSubnet, g.members, wanted, pool),
                CreateMembers(left, SortedIds(left.Keys), pool), MonitorSteps(d, g.monitor, pool));
    }
  }

  lemma NoPool(env: Env, d: Desired, st: Store, site: Site)
    requires PoolAt(st.pools, site.loadBalancer).None?
    ensures NonPolicyDiff(env, d, st, site) == 1 && JustifiedPoolStep(env, d, st, site, CreatePool)
  {
  }

  lemma HeadOfFour(a: seq<Mutation>, b: seq<Mutation>, c: seq<Mutation>, e: seq<Mutation>)
    ensures var plan := a + b + c + e;
            (plan == [] <==> a == [] && b == [] && c == [] && e == []) &&
            (plan != [] ==>
              plan[0] == if a != [] then a[0] else if b != [] then b[0] else if c != [] then c[0] else e[0])
  {
  }

  // ----- rules -----

  lemma {:induction false} RuleIndexSound(rules: seq<ObservedRule>)
    requires forall i, j :: 0 <= i < j < |rules| ==> rules[i].role != rules[j].role
    ensures forall i :: 0 <= i < |rules| ==> rules[i].role in RuleIndex(rules) && RuleIndex(rules)[rules[i].role] == rules[i]
    ensures forall role :: role in RuleIndex(rules) ==> exists i :: 0 <= i < |rules| && rules[i].role == role
  {
    if rules != [] {
      RuleIndexSound(rules[..|rules| - 1]);
    }
  }

  lemma {:induction false} PolicyIndexSound(policies: seq<ObservedPolicy>)
    requires forall i, j :: 0 <= i < j < |policies| ==> policies[i].role != policies[j].role
    ensures forall i :: 0 <= i < |policies| ==>
              policies[i].role in PolicyIndex(policies) && PolicyIndex(policies)[policies[i].role] == policies[i]
    ensures forall role :: role in PolicyIndex(policies) ==> exists i :: 0 <= i < |policies| && policies[i].role == role
  {
    if policies != [] {
      PolicyIndexSound(policies[..|policies| - 1]);
    }
  }

  ghost function RulesSeen(own: Owner, rules: Rules, p: Id): seq<ObservedRule>
    requires forall r :: r in RulesOf(rules, p) ==> RoleRule(own, rules[r].tags).Some?
  {
    ObservedRules(own, rules, SortedIds(RulesOf(rules, p)))
  }

  predicate RuleIndexed(v: RuleView, actual: map<Role, ObservedRule>, role: Role)
  {
    if v.NoRule? then role !in actual else role in actual && actual[role] == ObservedRule(v.id, role, v.rule)
  }

  lemma RulesSeenRoles(env: Env, rules: Rules, p: Id)
    requires RulesOk(env, rules, p)
    ensures var seen := RulesSeen(env.own, rules, p);
            (forall i, j :: 0 <= i < j < |seen| ==> seen[i].role != seen[j].role) &&
            (forall i :: 0 <= i < |seen| ==>
              IsRuleWith(env.own, rules, p, seen[i].role, seen[i].id) && seen[i].rule == rules[seen[i].id]) &&
            (forall r :: r in RulesOf(rules, p) ==> exists i :: 0 <= i < |seen| && seen[i].id == r)
  {
    hide RoleRule;
    var ids := SortedIds(RulesOf(rules, p));
    var seen := RulesSeen(env.own, rules, p);
    forall r | r in RulesOf(rules, p) ensures exists i :: 0 <= i < |seen| && seen[i].id == r {
      var i :| 0 <= i < |ids| && ids[i] == r;
      assert seen[i].id == r;
    }
  }

  lemma RulePresent(env: Env, rules: Rules, p: Id, role: Role, r: Id)
    requires RulesOk(env, rules, p) && IsRuleWith(env.own, rules, p, role, r)
    ensures var index := RuleIndex(RulesSeen(env.own, rules, p));
            role in index && index[role] == ObservedRule(r, role, rules[r])
  {
    hide RoleRule, RuleIndex, RulesSeen;
    var seen := RulesSeen(env.own, rules, p);
    RulesSeenRoles(env, rules, p);
    RuleIndexSound(seen);
    var i :| 0 <= i < |seen| && seen[i].id == r;
    assert seen[i].role == role;
  }

  lemma RuleIndexedOnly(env: Env, rules: Rules, p: Id, role: Role)
    requires RulesOk(env, rules, p) && role in RuleIndex(RulesSeen(env.own, rules, p))
    ensures exists r :: IsRuleWith(env.own, rules, p, role, r)
  {
    hide RoleRule, RuleIndex, RulesSeen;
    RulesSeenRoles(env, rules, p);
    RuleIndexSound(RulesSeen(env.own, rules, p));
  }

  /** The rule index of an observed policy agrees with the policy's view. */
  lemma RulesIndexed(env: Env, rules: Rules, p: Id, role: Role)
    requires RulesOk(env, rules, p)
    ensures RuleIndexed(ViewRule(env.own, rules, p, role), RuleIndex(RulesSeen(env.own, rules, p)), role)
  {
    hide IsRuleWith, RuleIndex, RulesSeen;
    if r :| IsRuleWith(env.own, rules, p, role, r) {
      RuleViewed(env, rules, p, role, r);
      RulePresent(env, rules, p, role, r);
    } else if role in RuleIndex(RulesSeen(env.own, rules, p)) {
      RuleIndexedOnly(env, rules, p, role);
      assert false;
    }
  }

  lemma OnlyTwoRuleRoles(env: Env, rules: Rules, p: Id, role: Role)
    requires RulesOk(env, rules, p) && role in RuleIndex(RulesSeen(env.own, rules, p))
    ensures IsRuleRole(role)
  {
    RulesIndexed(env, rules, p, role);
    var r := ViewRule(env.own, rules, p, role).id;
    assert IsRuleWith(env.own, rules, p, role, r);
  }

  ghost predicate RuleStepOk(policy: Id, wanted: seq<DesiredRule>, actual: map<Role, ObservedRule>, s: Mutation)
  {
    match s
    case CreateRule(p, wr) => p == policy && wr in wanted && wr.role !in actual
    case UpdateRule(r, p, wr) =>
      p == policy && wr in wanted && wr.role in actual && actual[wr.role].id == r && !RuleSettled(wr, actual[wr.role].rule)
    case DeleteRule(r, p) =>
      p == policy && exists role :: role in actual && actual[role].id == r && FindRule(wanted, role).None?
    case _ => false
  }

  predicate RuleRolesDistinct(wanted: seq<DesiredRule>)
  {
    forall i, j :: 0 <= i < j < |wanted| ==> wanted[i].role != wanted[j].role
  }

  lemma LeftoverRules(policy: Id, actual: map<Role, ObservedRule>)
    ensures forall s :: s in RuleSteps(policy, [], actual) ==> RuleStepOk(policy, [], actual, s)
    ensures RuleSteps(policy, [], actual) == [] <==> actual == map[]
  {
    var ids := SortedIds(RuleIds(actual));
    forall s | s in DeleteRules(policy, ids) ensures RuleStepOk(policy, [], actual, s) {
      var i :| 0 <= i < |ids| && s == DeleteRule(ids[i], policy);
      assert ids[i] in RuleIds(actual);
    }
    if actual != map[] {
      var role :| role in actual;
      assert actual[role].id in RuleIds(actual);
    }
  }

  lemma {:induction false} RuleStepsJustified(policy: Id, wanted: seq<DesiredRule>, actual: map<Role, ObservedRule>, s: Mutation)
    requires RuleRolesDistinct(wanted) && s in RuleSteps(policy, wanted, actual)
    ensures RuleStepOk(policy, wanted, actual, s)
    decreases |wanted|
  {
    hide RuleSettled;
    if wanted == [] {
      LeftoverRules(policy, actual);
    } else if s !in OneRuleStep(policy, wanted[0], actual) {
      var rest, actual' := wanted[1..], actual - {wanted[0].role};
      RuleStepsJustified(policy, rest, actual', s);
      if s.DeleteRule? {
        var role :| role in actual' && actual'[role].id == s.id && FindRule(rest, role).None?;
        assert role in actual && FindRule(wanted, role) == FindRule(rest, role);
      } else {
        assert forall wr :: wr in rest ==> wr.role != wanted[0].role;
      }
    }
  }

  lemma OneRuleEmpty(policy: Id, wr: DesiredRule, actual: map<Role, ObservedRule>, v: RuleView)
    requires RuleIndexed(v, actual, wr.role)
    ensures OneRuleStep(policy, wr, actual) == [] <==> RuleCost(Some(wr), v) == 0
  {
    hide RuleSettled;
  }

  lemma RuleStepsCons(policy: Id, wanted: seq<DesiredRule>, actual: map<Role, ObservedRule>)
    requires wanted != []
    ensures RuleSteps(policy, wanted, actual) == [] <==>
            OneRuleStep(policy, wanted[0], actual) == [] &&
            RuleSteps(policy, wanted[1..], actual - {wanted[0].role}) == []
  {
    hide OneRuleStep;
  }

  lemma RulesWantedAre(d: Desired, w: DesiredPolicy)
    ensures var rules := RulesFor(w, d.spec.hostname);
            WantedRule(d, w, RulePath) == Some(rules[0]) &&
            WantedRule(d, w, RuleHost) == if |rules| == 2 then Some(rules[1]) else None
  {
    var rules := RulesFor(w, d.spec.hostname);
    assert |rules| == 2 ==> FindRule(rules[1..], RuleHost) == Some(rules[1]);
  }

  lemma OnlyHostLeft(actual: map<Role, ObservedRule>)
    requires forall role :: role in actual ==> IsRuleRole(role)
    ensures actual - {RulePath} == map[] <==> RuleHost !in actual
    ensures actual - {RulePath} - {RuleHost} == map[]
  {
    if RuleHost in actual {
      assert RuleHost in actual - {RulePath};
    }
    assert forall role :: role !in actual - {RulePath} - {RuleHost};
  }

  /** A policy's rule plan is empty exactly when its rules cost nothing. */
  lemma RulePlanEmpty(d: Desired, w: DesiredPolicy, policy: Id, actual: map<Role, ObservedRule>, path: RuleView, host: RuleView)
    requires RuleIndexed(path, actual, RulePath) && RuleIndexed(host, actual, RuleHost)
    requires forall role :: role in actual ==> IsRuleRole(role)
    ensures RuleSteps(policy, RulesFor(w, d.spec.hostname), actual) == [] <==>
            RuleCost(WantedRule(d, w, RulePath), path) + RuleCost(WantedRule(d, w, RuleHost), host) == 0
  {
    hide RuleSettled, RuleSteps, OneRuleStep, WantedRule, RulesFor, RuleStepOk;
    var rules := RulesFor(w, d.spec.hostname);
    var left := actual - {RulePath};
    RulesWantedAre(d, w);
    RuleStepsCons(policy, rules, actual);
    OneRuleEmpty(policy, rules[0], actual, path);
    OnlyHostLeft(actual);
    if |rules| == 1 {
      assert rules[1..] == [];
      LeftoverRules(policy, left);
    } else {
      RuleStepsCons(policy, rules[1..], left);
      assert rules[1..][0] == rules[1] && rules[1..][1..] == [];
      OneRuleEmpty(policy, rules[1], left, host);
      LeftoverRules(policy, left - {RuleHost});
    }
  }

  // ----- policies -----

  ghost predicate PolicyIndexed(own: Owner, rules: Rules, v: PolicyView, actual: map<Role, ObservedPolicy>, role: Role)
  {
    if v.NoPolicy? then role !in actual
    else
      role in actual && actual[role].id == v.id && actual[role].policy == v.policy &&
      (forall r :: r in RulesOf(rules, v.id) ==> RoleRule(own, rules[r].tags).Some?) &&
      actual[role].rules == RulesSeen(own, rules, v.id)
  }

  lemma PoliciesSeenRoles(env: Env, st: Store, site: Site)
    requires TreeOk(env, st, site) && site.listener != ""
    ensures var seen := PoliciesSeen(env, st, site.listener);
            (forall i, j :: 0 <= i < j < |seen| ==> seen[i].role != seen[j].role) &&
            (forall i :: 0 <= i < |seen| ==>
              IsPolicyWith(env.own, st.policies, site.listener, seen[i].role, seen[i].id) &&
              IsObservedAs(env.own, st.policies, st.rules, seen[i].id, seen[i])) &&
            (forall p :: p in PoliciesOf(st.policies, site.listener) ==> exists i :: 0 <= i < |seen| && seen[i].id == p)
  {
    hide RoleRule, RolePolicy, PoolTreeOk;
    var ids := SortedPolicies(st.policies, site.listener);
    var seen := PoliciesSeen(env, st, site.listener);
    forall p | p in PoliciesOf(st.policies, site.listener) ensures exists i :: 0 <= i < |seen| && seen[i].id == p {
      var i :| 0 <= i < |ids| && ids[i] == p;
      assert seen[i].id == p;
    }
  }

  lemma PolicyPresent(env: Env, st: Store, site: Site, role: Role, p: Id)
    requires TreeOk(env, st, site) && site.listener != "" && IsPolicyWith(env.own, st.policies, site.listener, role, p)
    ensures var index := PolicyIndex(PoliciesSeen(env, st, site.listener));
            role in index && IsObservedAs(env.own, st.policies, st.rules, p, index[role])
  {
    hide RolePolicy, PolicyIndex, PoolTreeOk, PolicyTreeOk, PoliciesSeen, IsObservedAs;
    var seen := PoliciesSeen(env, st, site.listener);
    PoliciesSeenRoles(env, st, site);
    PolicyIndexSound(seen);
    var i :| 0 <= i < |seen| && seen[i].id == p;
    assert seen[i].role == role;
  }

  lemma PolicyIndexedOnly(env: Env, st: Store, site: Site, role: Role)
    requires TreeOk(env, st, site) && site.listener != "" && role in PolicyIndex(PoliciesSeen(env, st, site.listener))
    ensures exists p :: IsPolicyWith(env.own, st.policies, site.listener, role, p)
  {
    hide RolePolicy, PolicyIndex, PoolTreeOk, PolicyTreeOk, PoliciesSeen, IsObservedAs;
    PoliciesSeenRoles(env, st, site);
    PolicyIndexSound(PoliciesSeen(env, st, site.listener));
  }

  lemma PoliciesIndexed(env: Env, st: Store, site: Site, role: Role)
    requires TreeOk(env, st, site) && site.listener != ""
    ensures PolicyIndexed(env.own, st.rules, View(env, st, site, role), PolicyIndex(PoliciesSeen(env, st, site.listener)), role)
  {
    hide RolePolicy, PolicyIndex, PoolTreeOk, PolicyTreeOk, PoliciesSeen, IsPolicyWith;
    if p :| IsPolicyWith(env.own, st.policies, site.listener, role, p) {
      PolicyPresent(env, st, site, role, p);
      PolicyViewed(env, st.policies, st.rules, site.listener, role, p);
    } else if role in PolicyIndex(PoliciesSeen(env, st, site.listener)) {
      PolicyIndexedOnly(env, st, site, role);
      assert false;
    }
  }

  lemma DesiredRoles(d: Desired, w: DesiredPolicy)
    requires d.policies == PoliciesFor(d.spec)
    ensures w in d.policies <==> WantedPolicy(d, w.role) == Some(w)
    ensures w in d.policies ==> IsPolicyRole(w.role)
    ensures RuleRolesDistinct(RulesFor(w, d.spec.hostname))
  {
  }

  lemma WantedRuleIs(d: Desired, w: DesiredPolicy, wr: DesiredRule)
    ensures wr in RulesFor(w, d.spec.hostname) <==> WantedRule(d, w, wr.role) == Some(wr)
    ensures wr in RulesFor(w, d.spec.hostname) ==> IsRuleRole(wr.role)
  {
    var rules := RulesFor(w, d.spec.hostname);
    assert FindRule(rules, RulePath) == Some(rules[0]);
    assert |rules| == 2 ==> FindRule(rules[1..], RuleHost) == Some(rules[1]);
  }

  /** The steps for one wanted policy are justified edits of its role. */
  lemma OnePolicyJustified(env: Env, d: Desired, st: Store, site: Site, w: DesiredPolicy, pool: Id, s: Mutation)
    requires TreeOk(env, st, site) && site.listener != "" && d.policies == PoliciesFor(d.spec) && w in d.policies
    requires PoolAt(st.pools, site.loadBalancer) == Some(pool)
    requires s in OnePolicySteps(d.spec.hostname, w, PolicyIndex(PoliciesSeen(env, st, site.listener)), pool)
    ensures JustifiedEdit(env, d, st, site, s, w.role)
  {
    hide RoleRule, RolePolicy, PolicyIndex, RuleIndex, PoolTreeOk, PolicySettled, RuleSettled, RulesFor, PoliciesFor,
         RuleSteps, PoliciesSeen;
    var index := PolicyIndex(PoliciesSeen(env, st, site.listener));
    PoliciesIndexed(env, st, site, w.role);
    DesiredRoles(d, w);
    var v := View(env, st, site, w.role);
    if v.HasPolicy? {
      ViewedPolicy(env, st, site, w.role);
      var wanted := RulesFor(w, d.spec.hostname);
      var actual := RuleIndex(RulesSeen(env.own, st.rules, v.id));
      if s in RuleSteps(v.id, wanted, actual) {
        RuleStepsJustified(v.id, wanted, actual, s);
        RuleStepIsEdit(env, d, st, site, w, s);
      }
    }
  }

  lemma RuleStepIsEdit(env: Env, d: Desired, st: Store, site: Site, w: DesiredPolicy, s: Mutation)
    requires TreeOk(env, st, site) && site.listener != ""
    requires WantedPolicy(d, w.role) == Some(w) && IsPolicyRole(w.role) && View(env, st, site, w.role).HasPolicy?
    requires var v := View(env, st, site, w.role);
             RulesOk(env, st.rules, v.id) && v == ViewOf(env.own, st.policies, st.rules, v.id) &&
             RuleStepOk(v.id, RulesFor(w, d.spec.hostname), RuleIndex(RulesSeen(env.own, st.rules, v.id)), s)
    ensures JustifiedEdit(env, d, st, site, s, w.role)
  {
    hide RoleRule, RolePolicy, RuleIndex, TreeOk, RuleSettled, RulesFor, FindPolicy, RulesSeen;
    var v := View(env, st, site, w.role);
    var actual := RuleIndex(RulesSeen(env.own, st.rules, v.id));
    match s {
      case CreateRule(_, wr) =>
        WantedRuleIs(d, w, wr);
        RulesIndexed(env, st.rules, v.id, wr.role);
      case UpdateRule(r, _, wr) =>
        WantedRuleIs(d, w, wr);
        RulesIndexed(env, st.rules, v.id, wr.role);
      case DeleteRule(r, _) =>
        var role :| role in actual && actual[role].id == r && FindRule(RulesFor(w, d.spec.hostname), role).None?;
        OnlyTwoRuleRoles(env, st.rules, v.id, role);
        RulesIndexed(env, st.rules, v.id, role);
    }
  }

  lemma OnePolicyEmpty(env: Env, d: Desired, st: Store, site: Site, w: DesiredPolicy, pool: Id)
    requires TreeOk(env, st, site) && site.listener != "" && d.policies == PoliciesFor(d.spec) && w in d.policies
    ensures OnePolicySteps(d.spec.hostname, w, PolicyIndex(PoliciesSeen(env, st, site.listener)), pool) == [] <==>
            PolicyCost(d, w.role, View(env, st, site, w.role), pool) == 0
  {
    hide RoleRule, RolePolicy, PolicyIndex, RuleIndex, PoolTreeOk, PolicySettled, RulesFor, PoliciesFor, RuleSteps,
         PoliciesSeen, FindRule, FindPolicy, RuleCost;
    PoliciesIndexed(env, st, site, w.role);
    DesiredRoles(d, w);
    var v := View(env, st, site, w.role);
    if v.HasPolicy? {
      ViewedPolicy(env, st, site, w.role);
      var actual := RuleIndex(RulesSeen(env.own, st.rules, v.id));
      RulesIndexed(env, st.rules, v.id, RulePath);
      RulesIndexed(env, st.rules, v.id, RuleHost);
      forall role | role in actual ensures IsRuleRole(role) {
        OnlyTwoRuleRoles(env, st.rules, v.id, role);
      }
      RulePlanEmpty(d, w, v.id, actual, v.path, v.host);
    }
  }

  lemma RolesWanted(d: Desired, role: Role)
    ensures role in WantedRoles(d) <==> WantedPolicy(d, role).Some?
  {
    if role in WantedRoles(d) {
      var i :| 0 <= i < |d.policies| && d.policies[i].role == role;
      assert d.policies[i] in d.policies;
    }
  }

  /** An observed policy in a role the route does not want: first its rules go,
      then the policy itself. */
  lemma UnwantedHead(env: Env, d: Desired, st: Store, site: Site, o: ObservedPolicy)
    requires TreeOk(env, st, site) && site.listener != "" && WantedPolicy(d, o.role).None?
    requires IsPolicyWith(env.own, st.policies, site.listener, o.role, o.id)
    requires IsObservedAs(env.own, st.policies, st.rules, o.id, o)
    ensures var steps := OneUnwantedStep(WantedRoles(d), o);
            steps != [] && JustifiedEdit(env, d, st, site, steps[0], o.role)
  {
    hide FindPolicy, PoolTreeOk, RoleRule;
    RolesWanted(d, o.role);
    PolicyViewed(env, st.policies, st.rules, site.listener, o.role, o.id);
    var role := PolicyHasRole(env, st.policies, st.rules, site.listener, o.id);
    assert RulesOk(env, st.rules, o.id);
    var v := View(env, st, site, o.role);
    if o.rules == [] {
      NoRulesViewed(env, st.rules, o.id);
      assert OneUnwantedStep(WantedRoles(d), o)[0] == DeletePolicy(o.id);
    } else {
      var r := o.rules[0].id;
      assert r in RulesOf(st.rules, o.id);
      var rr := RuleHasRole(env, st.rules, o.id, r);
      assert RuleIn(v, rr) == HasRule(r, st.rules[r]);
      assert OneUnwantedStep(WantedRoles(d), o)[0] == DeleteRule(r, o.id);
    }
  }

  lemma {:induction false} UnwantedPlanHead(env: Env, d: Desired, st: Store, site: Site, seen: seq<ObservedPolicy>)
    requires TreeOk(env, st, site) && site.listener != ""
    requires forall i :: 0 <= i < |seen| ==>
               IsPolicyWith(env.own, st.policies, site.listener, seen[i].role, seen[i].id) &&
               IsObservedAs(env.own, st.policies, st.rules, seen[i].id, seen[i])
    ensures var steps := UnwantedPolicySteps(WantedRoles(d), seen);
            (steps == [] <==> forall i :: 0 <= i < |seen| ==> WantedPolicy(d, seen[i].role).Some?) &&
            (steps != [] ==> exists role :: JustifiedEdit(env, d, st, site, steps[0], role))
  {
    hide TreeOk, IsPolicyWith, IsObservedAs, FindPolicy, JustifiedEdit, WantedRoles;
    if seen != [] {
      RolesWanted(d, seen[0].role);
      if WantedPolicy(d, seen[0].role).None? {
        UnwantedHead(env, d, st, site, seen[0]);
      }
      UnwantedPlanHead(env, d, st, site, seen[1..]);
      assert forall i :: 0 <= i < |seen[1..]| ==> seen[1..][i] == seen[i + 1];
      if forall i :: 0 <= i < |seen[1..]| ==> WantedPolicy(d, seen[1..][i].role).Some? {
        forall i | 1 <= i < |seen| ensures WantedPolicy(d, seen[i].role).Some? {
          assert seen[i] == seen[1..][i - 1];
        }
      }
    }
  }

  /** No unwanted policy is observed exactly when unwanted roles cost nothing. */
  lemma UnwantedCost(env: Env, d: Desired, st: Store, site: Site, role: Role)
    requires TreeOk(env, st, site) && site.listener != "" && WantedPolicy(d, role).None?
    ensures PolicyCost(d, role, View(env, st, site, role), PoolId(st, site)) == 0 <==>
            forall i :: 0 <= i < |PoliciesSeen(env, st, site.listener)| ==> PoliciesSeen(env, st, site.listener)[i].role != role
  {
    hide RolePolicy, RoleRule, PoolTreeOk, PolicyTreeOk, PoliciesSeen, FindPolicy, IsObservedAs;
    var seen := PoliciesSeen(env, st, site.listener);
    PoliciesSeenRoles(env, st, site);
    var v := View(env, st, site, role);
    if v.HasPolicy? {
      ViewedPolicy(env, st, site, role);
      var i :| 0 <= i < |seen| && seen[i].id == v.id;
      assert seen[i].role == role;
    }
  }

  lemma WantedPlanHead(env: Env, d: Desired, st: Store, site: Site)
    requires TreeOk(env, st, site) && site.listener != "" && d.policies == PoliciesFor(d.spec)
    ensures var pool := PoolId(st, site);
            var steps := WantedPolicySteps(d.spec.hostname, d.policies, PolicyIndex(PoliciesSeen(env, st, site.listener)), pool);
            (steps == [] <==> forall w :: w in d.policies ==> PolicyCost(d, w.role, View(env, st, site, w.role), pool) == 0) &&
            (steps != [] && PoolAt(st.pools, site.loadBalancer).Some? ==>
              exists role :: JustifiedEdit(env, d, st, site, steps[0], role))
  {
    hide PoolTreeOk, PolicyTreeOk, PolicyIndex, PoliciesSeen, JustifiedEdit, OnePolicySteps, PolicyCost, View;
    var pool := PoolId(st, site);
    var index := PolicyIndex(PoliciesSeen(env, st, site.listener));
    var hostname := d.spec.hostname;
    var w0 := d.policies[0];
    OnePolicyEmpty(env, d, st, site, w0, pool);
    var s0 := OnePolicySteps(hostname, w0, index, pool);
    if s0 != [] && PoolAt(st.pools, site.loadBalancer).Some? {
      OnePolicyJustified(env, d, st, site, w0, pool, s0[0]);
    }
    if |d.policies| == 2 {
      var w1 := d.policies[1];
      OnePolicyEmpty(env, d, st, site, w1, pool);
      var s1 := OnePolicySteps(hostname, w1, index, pool);
      if s1 != [] && PoolAt(st.pools, site.loadBalancer).Some? {
        OnePolicyJustified(env, d, st, site, w1, pool, s1[0]);
      }
      assert d.policies[1..][0] == w1 && d.policies[1..][1..] == [];
      assert WantedPolicySteps(hostname, d.policies[1..], index, pool) == s1 + WantedPolicySteps(hostname, [], index, pool) == s1;
      var steps := WantedPolicySteps(hostname, d.policies, index, pool);
      assert steps == s0 + s1;
      assert s0 != [] ==> steps[0] == s0[0];
      assert s0 == [] && s1 != [] ==> steps[0] == s1[0];
      assert forall w :: w in d.policies <==> w == w0 || w == w1;
    } else {
      assert d.policies[1..] == [] && WantedPolicySteps(hostname, [], index, pool) == [];
      assert WantedPolicySteps(hostname, d.policies, index, pool) == s0 + [] == s0;
      assert forall w :: w in d.policies <==> w == w0;
    }
  }

  /** The policy plan: its head is a justified edit once the pool exists, and it
      is empty exactly when no policy or rule differs. */
  lemma PolicyPlanHead(env: Env, d: Desired, st: Store, site: Site)
    requires TreeOk(env, st, site) && site.listener != "" && d.policies == PoliciesFor(d.spec)
    ensures var plan := PolicyPlan(d, PoliciesSeen(env, st, site.listener), PoolId(st, site));
            (plan == [] <==> PolicyDiff(env, d, st, site) == 0) &&
            (plan != [] && PoolAt(st.pools, site.loadBalancer).Some? ==>
              exists role :: JustifiedEdit(env, d, st, site, plan[0], role))
  {
    hide PoolTreeOk, PolicyTreeOk, PolicyIndex, PoliciesSeen, JustifiedEdit, PolicyCost, View, UnwantedPolicySteps, WantedPolicySteps,
         PoliciesFor, FindPolicy;
    var seen := PoliciesSeen(env, st, site.listener);
    var pool := PoolId(st, site);
    PoliciesSeenRoles(env, st, site);
    UnwantedPlanHead(env, d, st, site, seen);
    WantedPlanHead(env, d, st, site);
    var unwanted := UnwantedPolicySteps(WantedRoles(d), seen);
    var wanted := WantedPolicySteps(d.spec.hostname, d.policies, PolicyIndex(seen), pool);
    var plan := PolicyPlan(d, seen, pool);
    assert plan == unwanted + wanted;
    assert unwanted != [] ==> plan[0] == unwanted[0];
    assert unwanted == [] && wanted != [] ==> plan[0] == wanted[0];
    if unwanted == [] && wanted == [] {
      forall role | IsPolicyRole(role) ensures PolicyCost(d, role, View(env, st, site, role), pool) == 0 {
        var w := WantedPolicy(d, role);
        if w.None? {
          UnwantedCost(env, d, st, site, role);
        } else {
          assert w.value in d.policies && w.value.role == role;
        }
      }
    }
    if PolicyDiff(env, d, st, site) == 0 {
      forall w | w in d.policies ensures PolicyCost(d, w.role, View(env, st, site, w.role), pool) == 0 {
        DesiredRoles(d, w);
      }
      forall i | 0 <= i < |seen| ensures WantedPolicy(d, seen[i].role).Some? {
        var role := PolicyHasRole(env, st.policies, st.rules, site.listener, seen[i].id);
        if WantedPolicy(d, seen[i].role).None? {
          UnwantedCost(env, d, st, site, seen[i].role);
          assert false;
        }
      }
    }
  }

  // ----- switching policies -----

  lemma {:induction false} DisableStepsSound(policies: seq<ObservedPolicy>)
    ensures forall s :: s in DisableSteps(policies) ==>
              exists i :: 0 <= i < |policies| && policies[i].policy.up && s == DisablePolicy(policies[i].id)
    ensures DisableSteps(policies) == [] <==> forall i :: 0 <= i < |policies| ==> !policies[i].policy.up
  {
    if policies != [] {
      DisableStepsSound(policies[1..]);
      assert forall i :: 0 <= i < |policies[1..]| ==> policies[1..][i] == policies[i + 1];
      if forall i :: 0 <= i < |policies[1..]| ==> !policies[1..][i].policy.up {
        forall i | 1 <= i < |policies| ensures !policies[i].policy.up {
          assert policies[i] == policies[1..][i - 1];
        }
      }
      forall s | s in DisableSteps(policies)
        ensures exists i :: 0 <= i < |policies| && policies[i].policy.up && s == DisablePolicy(policies[i].id)
      {
        if s in DisableSteps(policies[1..]) {
          var i :| 0 <= i < |policies[1..]| && policies[1..][i].policy.up && s == DisablePolicy(policies[1..][i].id);
          assert policies[i + 1] == policies[1..][i];
        } else {
          assert policies[0].policy.up && s == DisablePolicy(policies[0].id);
        }
      }
    }
  }

  lemma {:induction false} FirstDisabledSound(role: Role, policies: seq<ObservedPolicy>)
    ensures var p := FirstDisabled(role, policies);
            if p.Some? then
              exists i :: 0 <= i < |policies| && policies[i].role == role && !policies[i].policy.up && policies[i].id == p.value
            else forall i :: 0 <= i < |policies| && policies[i].role == role ==> policies[i].policy.up
  {
    if policies != [] && !(policies[0].role == role && !policies[0].policy.up) {
      FirstDisabledSound(role, policies[1..]);
      if FirstDisabled(role, policies).Some? {
        var i :| 0 <= i < |policies[1..]| && policies[1..][i].role == role && !policies[1..][i].policy.up &&
                 policies[1..][i].id == FirstDisabled(role, policies).value;
        assert policies[i + 1] == policies[1..][i];
      } else {
        forall i | 1 <= i < |policies| && policies[i].role == role ensures policies[i].policy.up {
          assert policies[i] == policies[1..][i - 1];
        }
      }
    }
  }

  lemma {:induction false} EnableStepSound(wanted: seq<DesiredPolicy>, policies: seq<ObservedPolicy>)
    ensures var steps := EnableStep(wanted, policies);
            if steps == [] then
              forall w, i :: w in wanted && 0 <= i < |policies| && policies[i].role == w.role ==> policies[i].policy.up
            else
              exists i :: 0 <= i < |policies| && !policies[i].policy.up && steps == [EnablePolicy(policies[i].id)]
  {
    if wanted != [] {
      FirstDisabledSound(wanted[0].role, policies);
      EnableStepSound(wanted[1..], policies);
      assert forall w :: w in wanted <==> w == wanted[0] || w in wanted[1..];
    }
  }

  // ----- the whole plan -----

  /** All policies of the listener are disabled exactly when no observed policy
      is enabled. */
  lemma DarkSeen(env: Env, st: Store, site: Site)
    requires TreeOk(env, st, site) && site.listener != ""
    ensures var seen := PoliciesSeen(env, st, site.listener);
            Dark(st, site.listener) <==> forall i :: 0 <= i < |seen| ==> !seen[i].policy.up
  {
    hide RolePolicy, PoolTreeOk, PolicyTreeOk, PoliciesSeen;
    PoliciesSeenRoles(env, st, site);
  }

  lemma SwitchSeen(env: Env, st: Store, site: Site, i: int)
    requires TreeOk(env, st, site) && site.listener != "" && 0 <= i < |PoliciesSeen(env, st, site.listener)|
    ensures var o := PoliciesSeen(env, st, site.listener)[i];
            JustifiedSwitch(env, st, site, o.id, o.role, o.policy.up)
  {
    hide RolePolicy, PoolTreeOk, PoliciesSeen;
    PoliciesSeenRoles(env, st, site);
    var o := PoliciesSeen(env, st, site.listener)[i];
    PolicyViewed(env, st.policies, st.rules, site.listener, o.role, o.id);
    var role := PolicyHasRole(env, st.policies, st.rules, site.listener, o.id);
  }

  lemma DisableHead(env: Env, d: Desired, st: Store, site: Site)
    requires TreeOk(env, st, site) && site.listener != "" && PolicyDiff(env, d, st, site) > 0
    ensures var steps := DisableSteps(PoliciesSeen(env, st, site.listener));
            (steps == [] <==> Dark(st, site.listener)) && (steps != [] ==> Justified(env, d, st, site, steps[0]))
  {
    hide PoolTreeOk, PolicyTreeOk, PoliciesSeen, PolicyDiff, Dark, JustifiedSwitch, DisableSteps;
    var seen := PoliciesSeen(env, st, site.listener);
    var steps := DisableSteps(seen);
    DisableStepsSound(seen);
    DarkSeen(env, st, site);
    if steps != [] {
      assert steps[0] in steps;
      var i :| 0 <= i < |seen| && seen[i].policy.up && steps[0] == DisablePolicy(seen[i].id);
      SwitchSeen(env, st, site, i);
    }
  }

  lemma EnableHead(env: Env, d: Desired, st: Store, site: Site)
    requires TreeOk(env, st, site) && site.listener != ""
    requires PolicyDiff(env, d, st, site) == 0 && NonPolicyDiff(env, d, st, site) == 0
    ensures var steps := EnableStep(d.policies, PoliciesSeen(env, st, site.listener));
            steps != [] ==> Justified(env, d, st, site, steps[0])
  {
    hide PoolTreeOk, PolicyTreeOk, PoliciesSeen, PolicyDiff, NonPolicyDiff, JustifiedSwitch, EnableStep;
    var seen := PoliciesSeen(env, st, site.listener);
    var steps := EnableStep(d.policies, seen);
    EnableStepSound(d.policies, seen);
    if steps != [] {
      var i :| 0 <= i < |seen| && !seen[i].policy.up && steps == [EnablePolicy(seen[i].id)];
      SwitchSeen(env, st, site, i);
    }
  }

  /** The ensure plan in terms of the store. */
  lemma PlanShape(env: Env, d: Desired, st: Store, site: Site, plan: seq<Mutation>)
    requires TreeOk(env, st, site) && EnsurePlan(env.net, d, GraphOf(env, st, site)) == Some(plan)
    ensures var seen := PoliciesSeen(env, st, site.listener);
            var nonPolicy := NonPolicyPlan(env.net, d, GraphOf(env, st, site));
            var policy := PolicyPlan(d, seen, PoolId(st, site));
            nonPolicy.Some? &&
            plan == if policy != [] then DisableSteps(seen) + nonPolicy.value + policy
                    else if nonPolicy.value != [] then nonPolicy.value
                    else EnableStep(d.policies, seen)
  {
    hide PoolTreeOk, PolicyTreeOk, PoliciesSeen, NonPolicyPlan, PolicyPlan, DisableSteps, EnableStep;
  }

  /** The head of the ensure plan is a justified mutation. */
  lemma PlanHeadJustified(env: Env, d: Desired, st: Store, site: Site, plan: seq<Mutation>)
    requires LawfulNet(env.net) && DesiredOk(env.net, d) && TreeOk(env, st, site) && site.listener != ""
    requires EnsurePlan(env.net, d, GraphOf(env, st, site)) == Some(plan) && plan != []
    ensures Justified(env, d, st, site, plan[0])
  {
    hide LawfulNet, PoolTreeOk, PolicyTreeOk, PoliciesSeen, NonPolicyPlan, PolicyPlan, PolicyDiff, NonPolicyDiff, Dark,
         JustifiedPoolStep, JustifiedEdit, JustifiedSwitch, DisableSteps, EnableStep, EnsurePlan, GraphOf;
    var seen := PoliciesSeen(env, st, site.listener);
    var disable := DisableSteps(seen);
    PlanShape(env, d, st, site, plan);
    var nonPolicy := NonPolicyPlan(env.net, d, GraphOf(env, st, site)).value;
    var policy := PolicyPlan(d, seen, PoolId(st, site));
    NonPolicyHead(env, d, st, site, nonPolicy);
    PolicyPlanHead(env, d, st, site);
    if policy != [] {
      DisableHead(env, d, st, site);
      HeadOfFour(disable, nonPolicy, policy, []);
      assert disable + nonPolicy + policy + [] == plan;
      assert disable != [] ==> plan[0] == disable[0];
    }
    if nonPolicy != [] {
      NotSwitch(env, d, st, site, nonPolicy[0]);
    } else if policy != [] {
      PoolThere(env, d, st, site);
      var role :| JustifiedEdit(env, d, st, site, policy[0], role);
      EditNotSwitch(env, d, st, site, policy[0], role);
    } else {
      EnableHead(env, d, st, site);
    }
  }

  lemma NotSwitch(env: Env, d: Desired, st: Store, site: Site, m: Mutation)
    requires JustifiedPoolStep(env, d, st, site, m)
    ensures !m.DisablePolicy? && !m.EnablePolicy?
  {
  }

  lemma EditNotSwitch(env: Env, d: Desired, st: Store, site: Site, m: Mutation, role: Role)
    requires JustifiedEdit(env, d, st, site, m, role)
    ensures !m.DisablePolicy? && !m.EnablePolicy?
  {
  }

  lemma PoolThere(env: Env, d: Desired, st: Store, site: Site)
    requires NonPolicyDiff(env, d, st, site) == 0
    ensures PoolAt(st.pools, site.loadBalancer).Some?
  {
  }

  /** A policy is created or retargeted only towards an existing pool of the
      Gateway, and only a policy of the listener is retargeted. */
  ghost predicate TargetsHere(st: Store, site: Site, m: Mutation)
  {
    (m.CreatePolicy? || m.UpdatePolicy? ==> m.parent in PoolsOf(st.pools, site.loadBalancer)) &&
    (m.UpdatePolicy? ==> m.id in PoliciesOf(st.policies, site.listener))
  }

  lemma EditTargetsHere(env: Env, d: Desired, st: Store, site: Site, m: Mutation, role: Role)
    requires TreeOk(env, st, site) && site.listener != "" && JustifiedEdit(env, d, st, site, m, role)
    ensures TargetsHere(st, site, m)
  {
    hide TreeOk, View, WantedPolicy, WantedRule, PolicySettled, RuleSettled, RolePolicy, RulesOk, ViewOf;
    if View(env, st, site, role).HasPolicy? {
      ViewedPolicy(env, st, site, role);
    }
  }

  /** No policy is created or retargeted towards a pool that does not exist. */
  lemma PolicyTargetsExist(env: Env, d: Desired, st: Store, site: Site, plan: seq<Mutation>)
    requires LawfulNet(env.net) && DesiredOk(env.net, d) && TreeOk(env, st, site) && site.listener != ""
    requires EnsurePlan(env.net, d, GraphOf(env, st, site)) == Some(plan) && plan != []
    ensures TargetsHere(st, site, plan[0])
  {
    hide LawfulNet, DesiredOk, TreeOk, EnsurePlan, GraphOf, PolicyDiff, NonPolicyDiff, Dark, View, JustifiedEdit;
    PlanHeadJustified(env, d, st, site, plan);
    var m := plan[0];
    if role :| JustifiedEdit(env, d, st, site, m, role) {
      EditTargetsHere(env, d, st, site, m, role);
    }
  }

  /** The ensure plan never removes a pool. */
  lemma PlanKeepsPools(env: Env, d: Desired, st: Store, site: Site, plan: seq<Mutation>)
    requires LawfulNet(env.net) && DesiredOk(env.net, d) && TreeOk(env, st, site) && site.listener != ""
    requires EnsurePlan(env.net, d, GraphOf(env, st, site)) == Some(plan) && plan != []
    ensures !plan[0].DeletePool?
  {
    hide LawfulNet, DesiredOk, TreeOk, EnsurePlan, GraphOf, PolicyDiff, NonPolicyDiff, Dark, View;
    PlanHeadJustified(env, d, st, site, plan);
  }
}
