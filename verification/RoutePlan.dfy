/** Planning: the ordered mutations that take an observed route graph to the
    desired one, or to nothing. Only the head of a plan is ever executed. */
module RoutePlan {
  import opened Ownership
  import opened Octavia
  import opened RouteModel
  import opened RouteTree

  const MONITOR_DELAY := 10
  const MONITOR_TIMEOUT := 5
  const MONITOR_MAX_RETRIES := 3
  const MONITOR_MAX_RETRIES_DOWN := 3
  const MONITOR_EXPECTED_CODES := "200-399"

  datatype Mutation =
    | CreatePool
    | UpdatePool(id: Id)
    | DeleteMember(id: Id, parent: Id)
    | CreateMember(parent: Id, member: Endpoint)
    | UpdateMember(id: Id, parent: Id)
    | CreateMonitor(parent: Id)
    | UpdateMonitor(id: Id, parent: Id)
    | DisablePolicy(id: Id)
    | DeleteRule(id: Id, parent: Id)
    | DeletePolicy(id: Id)
    | CreatePolicy(parent: Id, policy: DesiredPolicy)
    | UpdatePolicy(id: Id, parent: Id, policy: DesiredPolicy)
    | CreateRule(parent: Id, rule: DesiredRule)
    | UpdateRule(id: Id, parent: Id, rule: DesiredRule)
    | EnablePolicy(id: Id)
    | DeleteMonitor(id: Id, parent: Id)
    | DeletePool(id: Id)

  // ----- when a resource needs no update -----

  predicate PoolSettled(pool: Pool)
  {
    pool.lbMethod == RoundRobin && pool.up
  }

  predicate MonitorSettled(d: Desired, monitor: Monitor)
  {
    monitor.delay == MONITOR_DELAY && monitor.timeout == MONITOR_TIMEOUT &&
    monitor.maxRetries == MONITOR_MAX_RETRIES && monitor.maxRetriesDown == MONITOR_MAX_RETRIES_DOWN &&
    monitor.urlPath == d.healthPath && monitor.httpMethod == GET &&
    monitor.expectedCodes == MONITOR_EXPECTED_CODES && monitor.up
  }

  predicate PolicySettled(wanted: DesiredPolicy, policy: Policy, pool: Id)
  {
    policy.action == RedirectToPool && policy.redirectPool == pool && policy.position == wanted.position
  }

  predicate RuleSettled(wanted: DesiredRule, rule: Rule)
  {
    rule.ruleType == wanted.ruleType && rule.compareType == wanted.compareType && rule.value == wanted.value &&
    !rule.invert && rule.up
  }

  // ----- pool, members and monitor -----

  function ObservedText(net: Net, m: ObservedMember): string
  {
    net.join(m.member.address, m.member.port)
  }

  /** An observed member is kept when a desired endpoint on the right subnet
      still needs it. */
  predicate Kept(net: Net, subnet: string, m: ObservedMember, wanted: map<string, Endpoint>)
  {
    ObservedText(net, m) in wanted && m.member.subnet == subnet
  }

  function OneMemberStep(net: Net, subnet: string, m: ObservedMember, wanted: map<string, Endpoint>, pool: Id)
    : seq<Mutation>
  {
    if !Kept(net, subnet, m, wanted) then [DeleteMember(m.id, pool)]
    else if m.member.up then []
    else [UpdateMember(m.id, pool)]
  }

  /** A kept member uses up the desired endpoint it matches. */
  function StillWanted(net: Net, subnet: string, m: ObservedMember, wanted: map<string, Endpoint>): map<string, Endpoint>
  {
    if Kept(net, subnet, m, wanted) then wanted - {ObservedText(net, m)} else wanted
  }

  /** Deletions and repairs of the observed members. */
  function MemberSteps(net: Net, subnet: string, ms: seq<ObservedMember>, wanted: map<string, Endpoint>, pool: Id)
    : seq<Mutation>
  {
    if ms == [] then []
    else
      OneMemberStep(net, subnet, ms[0], wanted, pool) +
      MemberSteps(net, subnet, ms[1..], StillWanted(net, subnet, ms[0], wanted), pool)
  }

  /** The desired endpoints no observed member satisfies. */
  function MembersLeft(net: Net, subnet: string, ms: seq<ObservedMember>, wanted: map<string, Endpoint>)
    : map<string, Endpoint>
  {
    if ms == [] then wanted
    else MembersLeft(net, subnet, ms[1..], StillWanted(net, subnet, ms[0], wanted))
  }

  function CreateMembers(left: map<string, Endpoint>, keys: seq<string>, pool: Id): (r: seq<Mutation>)
    requires forall i :: 0 <= i < |keys| ==> keys[i] in left
    ensures |r| == |keys| && forall i :: 0 <= i < |r| ==> r[i] == CreateMember(pool, left[keys[i]])
  {
    seq(|keys|, i requires 0 <= i < |keys| => CreateMember(pool, left[keys[i]]))
  }

  function MonitorSteps(d: Desired, monitor: Option<ObservedMonitor>, pool: Id): seq<Mutation>
  {
    if monitor.None? then [CreateMonitor(pool)]
    else if MonitorSettled(d, monitor.value.monitor) then []
    else [UpdateMonitor(monitor.value.id, pool)]
  }

  /** The part of the plan that does not concern L7 policies; None when the pool
      or the monitor has an immutable field with a foreign value. */
  ghost function NonPolicyPlan(net: Net, d: Desired, g: RouteGraph): Option<seq<Mutation>>
  {
    if g.pool.None? then Some([CreatePool])
    else if g.pool.value.pool.protocol != HTTP then None
    else if g.monitor.Some? && g.monitor.value.monitor.monitorType != HTTPMonitor then None
    else
      var pool := g.pool.value.id;
      var wanted := ByKey(net, d.members);
      var left := MembersLeft(net, d.spec.memberSubnet, g.members, wanted);
      Some((if PoolSettled(g.pool.value.pool) then [] else [UpdatePool(pool)]) +
           MemberSteps(net, d.spec.memberSubnet, g.members, wanted, pool) +
           CreateMembers(left, SortedIds(left.Keys), pool) +
           MonitorSteps(d, g.monitor, pool))
  }

  // ----- policies and rules -----

  /** Observed rules by role. */
  function RuleIndex(rules: seq<ObservedRule>): map<Role, ObservedRule>
  {
    if rules == [] then map[]
    else RuleIndex(rules[..|rules| - 1])[rules[|rules| - 1].role := rules[|rules| - 1]]
  }

  /** Observed policies by role. */
  function PolicyIndex(policies: seq<ObservedPolicy>): map<Role, ObservedPolicy>
  {
    if policies == [] then map[]
    else PolicyIndex(policies[..|policies| - 1])[policies[|policies| - 1].role := policies[|policies| - 1]]
  }

  function DeleteRules(policy: Id, ids: seq<Id>): (r: seq<Mutation>)
    ensures |r| == |ids| && forall i :: 0 <= i < |r| ==> r[i] == DeleteRule(ids[i], policy)
  {
    seq(|ids|, i requires 0 <= i < |ids| => DeleteRule(ids[i], policy))
  }

  function RuleIds(rules: map<Role, ObservedRule>): set<Id>
  {
    set role | role in rules :: rules[role].id
  }

  function OneRuleStep(policy: Id, wanted: DesiredRule, actual: map<Role, ObservedRule>): seq<Mutation>
  {
    if wanted.role !in actual then [CreateRule(policy, wanted)]
    else if RuleSettled(wanted, actual[wanted.role].rule) then []
    else [UpdateRule(actual[wanted.role].id, policy, wanted)]
  }

  /** Creates and repairs the wanted rules, then deletes whatever is left over. */
  ghost function RuleSteps(policy: Id, wanted: seq<DesiredRule>, actual: map<Role, ObservedRule>): seq<Mutation>
    decreases |wanted|
  {
    if wanted == [] then DeleteRules(policy, SortedIds(RuleIds(actual)))
    else OneRuleStep(policy, wanted[0], actual) + RuleSteps(policy, wanted[1..], actual - {wanted[0].role})
  }

  ghost function WantedPolicySteps(
    hostname: string, wanted: seq<DesiredPolicy>, actual: map<Role, ObservedPolicy>, pool: Id): seq<Mutation>
  {
    if wanted == [] then []
    else
      OnePolicySteps(hostname, wanted[0], actual, pool) + WantedPolicySteps(hostname, wanted[1..], actual, pool)
  }

  ghost function OnePolicySteps(
    hostname: string, wanted: DesiredPolicy, actual: map<Role, ObservedPolicy>, pool: Id): seq<Mutation>
  {
    if wanted.role !in actual then [CreatePolicy(pool, wanted)]
    else
      var o := actual[wanted.role];
      (if PolicySettled(wanted, o.policy, pool) then [] else [UpdatePolicy(o.id, pool, wanted)]) +
      RuleSteps(o.id, RulesFor(wanted, hostname), RuleIndex(o.rules))
  }

  function ObservedRuleIds(rules: seq<ObservedRule>): (r: seq<Id>)
    ensures |r| == |rules| && forall i :: 0 <= i < |r| ==> r[i] == rules[i].id
  {
    seq(|rules|, i requires 0 <= i < |rules| => rules[i].id)
  }

  function OneUnwantedStep(roles: set<Role>, policy: ObservedPolicy): seq<Mutation>
  {
    if policy.role in roles then []
    else DeleteRules(policy.id, ObservedRuleIds(policy.rules)) + [DeletePolicy(policy.id)]
  }

  function UnwantedPolicySteps(roles: set<Role>, policies: seq<ObservedPolicy>): seq<Mutation>
  {
    if policies == [] then []
    else OneUnwantedStep(roles, policies[0]) + UnwantedPolicySteps(roles, policies[1..])
  }

  function WantedRoles(d: Desired): set<Role>
  {
    set i | 0 <= i < |d.policies| :: d.policies[i].role
  }

  ghost function PolicyPlan(d: Desired, policies: seq<ObservedPolicy>, pool: Id): seq<Mutation>
  {
    UnwantedPolicySteps(WantedRoles(d), policies) +
    WantedPolicySteps(d.spec.hostname, d.policies, PolicyIndex(policies), pool)
  }

  function DisableSteps(policies: seq<ObservedPolicy>): seq<Mutation>
  {
    if policies == [] then []
    else (if policies[0].policy.up then [DisablePolicy(policies[0].id)] else []) + DisableSteps(policies[1..])
  }

  /** The first observed policy with the role that is disabled. */
  function FirstDisabled(role: Role, policies: seq<ObservedPolicy>): Option<Id>
  {
    if policies == [] then None
    else if policies[0].role == role && !policies[0].policy.up then Some(policies[0].id)
    else FirstDisabled(role, policies[1..])
  }

  function EnableStep(wanted: seq<DesiredPolicy>, policies: seq<ObservedPolicy>): seq<Mutation>
  {
    if wanted == [] then []
    else
      var p := FirstDisabled(wanted[0].role, policies);
      if p.Some? then [EnablePolicy(p.value)] else EnableStep(wanted[1..], policies)
  }

  /** The ensure plan: with any semantic difference in the policies, first
      disable all of them; enable one only when nothing else remains. */
  ghost function EnsurePlan(net: Net, d: Desired, g: RouteGraph): Option<seq<Mutation>>
  {
    var nonPolicy := NonPolicyPlan(net, d, g);
    if nonPolicy.None? then None
    else
      var pool := if g.pool.Some? then g.pool.value.id else "";
      var policyPlan := PolicyPlan(d, g.policies, pool);
      if policyPlan != [] then Some(DisableSteps(g.policies) + nonPolicy.value + policyPlan)
      else if nonPolicy.value != [] then nonPolicy
      else Some(EnableStep(d.policies, g.policies))
  }

  // ----- the plan builders as the provider runs them -----

  lemma Assoc<T>(a: seq<T>, b: seq<T>, c: seq<T>)
    ensures a + b + c == a + (b + c)
  {
  }

  /** Goes through the observed members, taking each kept one off the table of
      desired members. */
  method MatchMembers(net: Net, d: Desired, ms: seq<ObservedMember>, pool: Id)
    returns (plan: seq<Mutation>, desiredMembers: map<string, Endpoint>)
    ensures plan == MemberSteps(net, d.spec.memberSubnet, ms, ByKey(net, d.members), pool)
    ensures desiredMembers == MembersLeft(net, d.spec.memberSubnet, ms, ByKey(net, d.members))
  {
    hide OneMemberStep, StillWanted, ByKey;
    var subnet := d.spec.memberSubnet;
    desiredMembers := ByKey(net, d.members);
    ghost var wanted := desiredMembers;
    plan := [];
    for i := 0 to |ms|
      invariant plan + MemberSteps(net, subnet, ms[i..], desiredMembers, pool) == MemberSteps(net, subnet, ms, wanted, pool)
      invariant MembersLeft(net, subnet, ms[i..], desiredMembers) == MembersLeft(net, subnet, ms, wanted)
    {
      assert ms[i..][0] == ms[i] && ms[i..][1..] == ms[i + 1..];
      var step := OneMemberStep(net, subnet, ms[i], desiredMembers, pool);
      desiredMembers := StillWanted(net, subnet, ms[i], desiredMembers);
      Assoc(plan, step, MemberSteps(net, subnet, ms[i + 1..], desiredMembers, pool));
      plan := plan + step;
    }
  }

  method BuildMemberPlan(net: Net, d: Desired, ms: seq<ObservedMember>, pool: Id) returns (plan: seq<Mutation>)
    ensures var wanted := ByKey(net, d.members);
            var left := MembersLeft(net, d.spec.memberSubnet, ms, wanted);
            plan == MemberSteps(net, d.spec.memberSubnet, ms, wanted, pool) +
                    CreateMembers(left, SortedIds(left.Keys), pool)
  {
    hide MemberSteps, MembersLeft, ByKey, SortedIds;
    var steps, desiredMembers := MatchMembers(net, d, ms, pool);
    var missing := ListIds(desiredMembers.Keys);
    plan := steps + CreateMembers(desiredMembers, missing, pool);
  }

  method BuildOneRulePlan(policy: Id, wanted: DesiredRule, rules: map<Role, ObservedRule>)
    returns (step: seq<Mutation>, semanticDiff: bool)
    ensures step == OneRuleStep(policy, wanted, rules)
    ensures semanticDiff <==> step != []
  {
    if wanted.role !in rules {
      return [CreateRule(policy, wanted)], true;
    }
    if !RuleSettled(wanted, rules[wanted.role].rule) {
      return [UpdateRule(rules[wanted.role].id, policy, wanted)], true;
    }
    return [], false;
  }

  /** Creates and repairs wanted rules, flagging every difference. */
  method BuildWantedRulePlan(policy: Id, wanted: seq<DesiredRule>, rules: map<Role, ObservedRule>)
    returns (plan: seq<Mutation>, left: map<Role, ObservedRule>, semanticDiff: bool)
    ensures plan + DeleteRules(policy, SortedIds(RuleIds(left))) == RuleSteps(policy, wanted, rules)
    ensures semanticDiff <==> plan != []
  {
    hide OneRuleStep, SortedIds;
    left := rules;
    plan, semanticDiff := [], false;
    for i := 0 to |wanted|
      invariant plan + RuleSteps(policy, wanted[i..], left) == RuleSteps(policy, wanted, rules)
      invariant semanticDiff <==> plan != []
    {
      assert wanted[i..][0] == wanted[i] && wanted[i..][1..] == wanted[i + 1..];
      var step, stepDiff := BuildOneRulePlan(policy, wanted[i], left);
      left := left - {wanted[i].role};
      Assoc(plan, step, RuleSteps(policy, wanted[i + 1..], left));
      plan := plan + step;
      semanticDiff := semanticDiff || stepDiff;
    }
  }

  method BuildStaleRulePlan(policy: Id, stale: seq<Id>) returns (plan: seq<Mutation>, semanticDiff: bool)
    ensures plan == DeleteRules(policy, stale)
    ensures semanticDiff <==> plan != []
  {
    plan, semanticDiff := [], false;
    for i := 0 to |stale|
      invariant plan == DeleteRules(policy, stale)[..i]
      invariant semanticDiff <==> plan != []
    {
      semanticDiff := true;
      plan := plan + [DeleteRule(stale[i], policy)];
    }
  }

  method BuildRulePlan(policy: Id, wanted: seq<DesiredRule>, rules: seq<ObservedRule>)
    returns (plan: seq<Mutation>, semanticDiff: bool)
    ensures plan == RuleSteps(policy, wanted, RuleIndex(rules))
    ensures semanticDiff <==> plan != []
  {
    hide RuleIndex, RuleSteps, SortedIds, DeleteRules;
    var wantedPlan, left, wantedDiff := BuildWantedRulePlan(policy, wanted, RuleIndex(rules));
    var stale := ListIds(RuleIds(left));
    var stalePlan, staleDiff := BuildStaleRulePlan(policy, stale);
    plan, semanticDiff := wantedPlan + stalePlan, wantedDiff || staleDiff;
  }

  method BuildUnwantedPolicyPlan(roles: set<Role>, actual: seq<ObservedPolicy>)
    returns (plan: seq<Mutation>, semanticDiff: bool)
    ensures plan == UnwantedPolicySteps(roles, actual)
    ensures semanticDiff <==> plan != []
  {
    hide OneUnwantedStep;
    plan, semanticDiff := [], false;
    for i := 0 to |actual|
      invariant plan + UnwantedPolicySteps(roles, actual[i..]) == UnwantedPolicySteps(roles, actual)
      invariant semanticDiff <==> plan != []
    {
      assert actual[i..][0] == actual[i] && actual[i..][1..] == actual[i + 1..];
      var step := OneUnwantedStep(roles, actual[i]);
      Assoc(plan, step, UnwantedPolicySteps(roles, actual[i + 1..]));
      UnwantedStepEmpty(roles, actual[i]);
      if actual[i].role !in roles {
        semanticDiff := true;
      }
      plan := plan + step;
    }
  }

  lemma UnwantedStepEmpty(roles: set<Role>, policy: ObservedPolicy)
    ensures OneUnwantedStep(roles, policy) == [] <==> policy.role in roles
  {
  }

  method BuildOnePolicyPlan(hostname: string, wanted: DesiredPolicy, actual: map<Role, ObservedPolicy>, pool: Id)
    returns (plan: seq<Mutation>, semanticDiff: bool)
    ensures plan == OnePolicySteps(hostname, wanted, actual, pool)
    ensures semanticDiff <==> plan != []
  {
    hide RuleSteps, RuleIndex;
    if wanted.role !in actual {
      return [CreatePolicy(pool, wanted)], true;
    }
    var o := actual[wanted.role];
    plan, semanticDiff := [], false;
    if !PolicySettled(wanted, o.policy, pool) {
      semanticDiff := true;
      plan := [UpdatePolicy(o.id, pool, wanted)];
    }
    var rulePlan, ruleDiff := BuildRulePlan(o.id, RulesFor(wanted, hostname), o.rules);
    plan := plan + rulePlan;
    semanticDiff := semanticDiff || ruleDiff;
  }

  /** The flag is set where a difference is met, and only there: it is true exactly
      when the policy plan is not empty. */
  method BuildRoutePolicyPlan(d: Desired, actual: seq<ObservedPolicy>, pool: Id)
    returns (plan: seq<Mutation>, semanticDiff: bool)
    ensures plan == PolicyPlan(d, actual, pool)
    ensures semanticDiff <==> plan != []
  {
    hide OnePolicySteps, UnwantedPolicySteps, PolicyIndex;
    var index := PolicyIndex(actual);
    ghost var hostname := d.spec.hostname;
    plan, semanticDiff := BuildUnwantedPolicyPlan(WantedRoles(d), actual);
    for i := 0 to |d.policies|
      invariant plan + WantedPolicySteps(hostname, d.policies[i..], index, pool) == PolicyPlan(d, actual, pool)
      invariant semanticDiff <==> plan != []
    {
      assert d.policies[i..][0] == d.policies[i] && d.policies[i..][1..] == d.policies[i + 1..];
      var step, stepDiff := BuildOnePolicyPlan(d.spec.hostname, d.policies[i], index, pool);
      Assoc(plan, step, WantedPolicySteps(hostname, d.policies[i + 1..], index, pool));
      plan := plan + step;
      semanticDiff := semanticDiff || stepDiff;
    }
  }

  method BuildDisablePlan(policies: seq<ObservedPolicy>) returns (plan: seq<Mutation>)
    ensures plan == DisableSteps(policies)
  {
    plan := [];
    for i := 0 to |policies|
      invariant plan + DisableSteps(policies[i..]) == DisableSteps(policies)
    {
      assert policies[i..][0] == policies[i] && policies[i..][1..] == policies[i + 1..];
      if policies[i].policy.up {
        plan := plan + [DisablePolicy(policies[i].id)];
      }
    }
  }

  method BuildEnablePlan(wanted: seq<DesiredPolicy>, policies: seq<ObservedPolicy>) returns (plan: seq<Mutation>)
    ensures plan == EnableStep(wanted, policies)
  {
    for i := 0 to |wanted|
      invariant EnableStep(wanted[i..], policies) == EnableStep(wanted, policies)
    {
      assert wanted[i..][0] == wanted[i] && wanted[i..][1..] == wanted[i + 1..];
      for j := 0 to |policies|
        invariant FirstDisabled(wanted[i].role, policies[j..]) == FirstDisabled(wanted[i].role, policies)
      {
        assert policies[j..][0] == policies[j] && policies[j..][1..] == policies[j + 1..];
        if policies[j].role == wanted[i].role && !policies[j].policy.up {
          return [EnablePolicy(policies[j].id)];
        }
      }
    }
    plan := [];
  }

  method BuildRouteEnsurePlan(net: Net, d: Desired, g: RouteGraph) returns (r: Option<seq<Mutation>>)
    ensures r == EnsurePlan(net, d, g)
  {
    hide MemberSteps, MembersLeft, ByKey, MonitorSettled, PoolSettled, PolicyPlan, DisableSteps, EnableStep;
    var nonPolicyPlan: seq<Mutation> := [];
    var pool := "";
    if g.pool.None? {
      nonPolicyPlan := [CreatePool];
    } else {
      pool := g.pool.value.id;
      if g.pool.value.pool.protocol != HTTP {
        return None;
      }
      if !PoolSettled(g.pool.value.pool) {
        nonPolicyPlan := [UpdatePool(pool)];
      }
      var memberPlan := BuildMemberPlan(net, d, g.members, pool);
      ghost var wanted := ByKey(net, d.members);
      ghost var left := MembersLeft(net, d.spec.memberSubnet, g.members, wanted);
      Assoc(nonPolicyPlan, MemberSteps(net, d.spec.memberSubnet, g.members, wanted, pool),
            CreateMembers(left, SortedIds(left.Keys), pool));
      nonPolicyPlan := nonPolicyPlan + memberPlan;
      if g.monitor.Some? && g.monitor.value.monitor.monitorType != HTTPMonitor {
        return None;
      }
      nonPolicyPlan := nonPolicyPlan + MonitorSteps(d, g.monitor, pool);
    }
    assert NonPolicyPlan(net, d, g) == Some(nonPolicyPlan);
    var policyPlan, semanticDiff := BuildRoutePolicyPlan(d, g.policies, pool);
    if semanticDiff {
      var disablePlan := BuildDisablePlan(g.policies);
      return Some(disablePlan + nonPolicyPlan + policyPlan);
    }
    if nonPolicyPlan != [] {
      return Some(nonPolicyPlan);
    }
    var enablePlan := BuildEnablePlan(d.policies, g.policies);
    r := Some(enablePlan);
  }
}
