/** A listener's policies seen by role. A valid tree has at most one policy per
    role and one rule per role beneath it, so this view is the whole tree, and a
    mutation changes exactly one entry of it. */
module PolicyViews {
  import opened Ownership
  import opened Octavia
  import opened RouteTree

  datatype RuleView = NoRule | HasRule(id: Id, rule: Rule)
  datatype PolicyView = NoPolicy | HasPolicy(id: Id, policy: Policy, path: RuleView, host: RuleView)

  ghost predicate IsRuleWith(own: Owner, rules: Rules, policy: Id, role: Role, r: Id)
  {
    r in RulesOf(rules, policy) && RoleRule(own, rules[r].tags) == Some(role)
  }

  ghost function ViewRule(own: Owner, rules: Rules, policy: Id, role: Role): RuleView
  {
    if r :| IsRuleWith(own, rules, policy, role, r) then HasRule(r, rules[r]) else NoRule
  }

  ghost predicate IsPolicyWith(own: Owner, policies: Policies, listener: Id, role: Role, p: Id)
  {
    p in PoliciesOf(policies, listener) && RolePolicy(own, policies[p].tags) == Some(role)
  }

  ghost function ViewOf(own: Owner, policies: Policies, rules: Rules, p: Id): PolicyView
    requires p in policies
  {
    HasPolicy(p, policies[p], ViewRule(own, rules, p, RulePath), ViewRule(own, rules, p, RuleHost))
  }

  ghost function ViewPolicy(own: Owner, policies: Policies, rules: Rules, listener: Id, role: Role): PolicyView
  {
    if p :| IsPolicyWith(own, policies, listener, role, p) then ViewOf(own, policies, rules, p) else NoPolicy
  }

  lemma RuleViewed(env: Env, rules: Rules, policy: Id, role: Role, r: Id)
    requires RulesOk(env, rules, policy) && IsRuleWith(env.own, rules, policy, role, r)
    ensures ViewRule(env.own, rules, policy, role) == HasRule(r, rules[r])
  {
    hide RoleRule;
  }

  lemma PolicyViewed(env: Env, policies: Policies, rules: Rules, listener: Id, role: Role, p: Id)
    requires listener != "" && PolicyTreeOk(env, policies, rules, listener)
    requires IsPolicyWith(env.own, policies, listener, role, p)
    ensures ViewPolicy(env.own, policies, rules, listener, role) == ViewOf(env.own, policies, rules, p)
  {
    hide RolePolicy, ViewOf;
  }

  /** Every policy of a valid tree is the view of one of the two roles. */
  lemma PolicyHasRole(env: Env, policies: Policies, rules: Rules, listener: Id, p: Id) returns (role: Role)
    requires listener != "" && PolicyTreeOk(env, policies, rules, listener) && p in PoliciesOf(policies, listener)
    ensures role == PolicyExact || role == PolicyPrefix
    ensures IsPolicyWith(env.own, policies, listener, role, p)
    ensures ViewPolicy(env.own, policies, rules, listener, role) == ViewOf(env.own, policies, rules, p)
  {
    assert PolicyOk(env, listener, policies[p]);
    role := RolePolicy(env.own, policies[p].tags).value;
    PolicyViewed(env, policies, rules, listener, role, p);
  }

  lemma RuleHasRole(env: Env, rules: Rules, policy: Id, r: Id) returns (role: Role)
    requires RulesOk(env, rules, policy) && r in RulesOf(rules, policy)
    ensures role == RulePath || role == RuleHost
    ensures IsRuleWith(env.own, rules, policy, role, r)
    ensures ViewRule(env.own, rules, policy, role) == HasRule(r, rules[r])
  {
    assert RuleOk(env, rules[r]);
    role := RoleRule(env.own, rules[r].tags).value;
    RuleViewed(env, rules, policy, role, r);
  }

  /** A policy without viewed rules has no rules at all. */
  lemma NoRulesViewed(env: Env, rules: Rules, policy: Id)
    requires RulesOk(env, rules, policy)
    ensures RulesOf(rules, policy) == {} <==>
            ViewRule(env.own, rules, policy, RulePath) == NoRule && ViewRule(env.own, rules, policy, RuleHost) == NoRule
  {
    if RulesOf(rules, policy) != {} {
      var r :| r in RulesOf(rules, policy);
      var role := RuleHasRole(env, rules, policy, r);
    }
  }

  // ----- frame: untouched policies keep their view -----

  ghost predicate SameRules(rules: Rules, rules': Rules, p: Id)
  {
    RulesOf(rules, p) == RulesOf(rules', p) && forall r :: r in RulesOf(rules, p) ==> rules[r] == rules'[r]
  }

  lemma SameRulesViewed(env: Env, rules: Rules, rules': Rules, p: Id)
    requires SameRules(rules, rules', p) && RulesOk(env, rules, p)
    ensures RulesOk(env, rules', p)
    ensures forall role :: ViewRule(env.own, rules', p, role) == ViewRule(env.own, rules, p, role)
  {
    hide RoleRule;
    forall role ensures ViewRule(env.own, rules', p, role) == ViewRule(env.own, rules, p, role) {
      if r :| IsRuleWith(env.own, rules, p, role, r) {
        assert IsRuleWith(env.own, rules', p, role, r);
        RuleViewed(env, rules, p, role, r);
        RuleViewed(env, rules', p, role, r);
      } else {
        assert forall r :: IsRuleWith(env.own, rules', p, role, r) ==> IsRuleWith(env.own, rules, p, role, r);
      }
    }
  }

  ghost predicate SamePolicy(policies: Policies, rules: Rules, policies': Policies, rules': Rules, p: Id)
  {
    (p in policies <==> p in policies') && (p in policies ==> policies[p] == policies'[p]) && SameRules(rules, rules', p)
  }

  /** Policies other than `x` unchanged, and `x` on both sides of the given role:
      every other role's view is unchanged. */
  lemma OtherRolesViewed(
    env: Env, policies: Policies, rules: Rules, policies': Policies, rules': Rules, listener: Id, x: Id, role: Role)
    requires listener != ""
    requires PolicyTreeOk(env, policies, rules, listener) && PolicyTreeOk(env, policies', rules', listener)
    requires forall p :: p != x ==> SamePolicy(policies, rules, policies', rules', p)
    requires !IsPolicyWith(env.own, policies, listener, role, x) && !IsPolicyWith(env.own, policies', listener, role, x)
    ensures ViewPolicy(env.own, policies', rules', listener, role) == ViewPolicy(env.own, policies, rules, listener, role)
  {
    hide RolePolicy, RulesOk, PolicyOk;
    if p :| IsPolicyWith(env.own, policies, listener, role, p) {
      assert SamePolicy(policies, rules, policies', rules', p);
      assert IsPolicyWith(env.own, policies', listener, role, p);
      PolicyViewed(env, policies, rules, listener, role, p);
      PolicyViewed(env, policies', rules', listener, role, p);
      SameRulesViewed(env, rules, rules', p);
    } else {
      forall p | p != x ensures !IsPolicyWith(env.own, policies', listener, role, p) {
        assert SamePolicy(policies, rules, policies', rules', p);
        assert !IsPolicyWith(env.own, policies, listener, role, p);
      }
    }
  }

  // ----- the three ways a policy record changes -----

  /** Rewriting fields other than the tags and parents of one policy. */
  lemma PolicyRewritten(env: Env, policies: Policies, rules: Rules, listener: Id, role: Role, x: Id, policy: Policy)
    requires listener != "" && PolicyTreeOk(env, policies, rules, listener)
    requires IsPolicyWith(env.own, policies, listener, role, x)
    requires policy.parent == policies[x].parent && policy.reported == policies[x].reported
    requires policy.project == policies[x].project && policy.tags == policies[x].tags
    ensures var policies' := policies[x := policy];
            PolicyTreeOk(env, policies', rules, listener) &&
            PoliciesOf(policies', listener) == PoliciesOf(policies, listener) &&
            ViewPolicy(env.own, policies', rules, listener, role) ==
              ViewOf(env.own, policies, rules, x).(policy := policy) &&
            (forall other :: other != role ==>
              ViewPolicy(env.own, policies', rules, listener, other) == ViewPolicy(env.own, policies, rules, listener, other))
  {
    hide RolePolicy, RulesOk;
    var policies' := policies[x := policy];
    assert PoliciesOf(policies', listener) == PoliciesOf(policies, listener);
    assert PolicyTreeOk(env, policies', rules, listener);
    PolicyViewed(env, policies', rules, listener, role, x);
    forall other | other != role
      ensures ViewPolicy(env.own, policies', rules, listener, other) == ViewPolicy(env.own, policies, rules, listener, other)
    {
      OtherRolesViewed(env, policies, rules, policies', rules, listener, x, other);
    }
  }

  lemma PolicyRemoved(env: Env, policies: Policies, rules: Rules, listener: Id, role: Role, x: Id)
    requires listener != "" && PolicyTreeOk(env, policies, rules, listener)
    requires IsPolicyWith(env.own, policies, listener, role, x)
    ensures var policies' := policies - {x};
            PolicyTreeOk(env, policies', rules, listener) &&
            PoliciesOf(policies', listener) == PoliciesOf(policies, listener) - {x} &&
            ViewPolicy(env.own, policies', rules, listener, role) == NoPolicy &&
            (forall other :: other != role ==>
              ViewPolicy(env.own, policies', rules, listener, other) == ViewPolicy(env.own, policies, rules, listener, other))
  {
    hide RolePolicy, RulesOk, PolicyOk;
    var policies' := policies - {x};
    assert PoliciesOf(policies', listener) == PoliciesOf(policies, listener) - {x};
    assert PolicyTreeOk(env, policies', rules, listener);
    forall p | p in PoliciesOf(policies', listener) ensures RolePolicy(env.own, policies'[p].tags) != Some(role) {
      assert p in PoliciesOf(policies, listener) && x in PoliciesOf(policies, listener) && p != x;
    }
    forall other | other != role
      ensures ViewPolicy(env.own, policies', rules, listener, other) == ViewPolicy(env.own, policies, rules, listener, other)
    {
      OtherRolesViewed(env, policies, rules, policies', rules, listener, x, other);
    }
  }

  lemma PolicyAdded(env: Env, policies: Policies, rules: Rules, listener: Id, role: Role, x: Id, policy: Policy)
    requires listener != "" && PolicyTreeOk(env, policies, rules, listener)
    requires ViewPolicy(env.own, policies, rules, listener, role) == NoPolicy
    requires x !in policies && RulesOf(rules, x) == {}
    requires policy.parent == listener && PolicyOk(env, listener, policy) && RolePolicy(env.own, policy.tags) == Some(role)
    ensures var policies' := policies[x := policy];
            PolicyTreeOk(env, policies', rules, listener) &&
            PoliciesOf(policies', listener) == PoliciesOf(policies, listener) + {x} &&
            ViewPolicy(env.own, policies', rules, listener, role) == HasPolicy(x, policy, NoRule, NoRule) &&
            (forall other :: other != role ==>
              ViewPolicy(env.own, policies', rules, listener, other) == ViewPolicy(env.own, policies, rules, listener, other))
  {
    hide RolePolicy;
    var policies' := policies[x := policy];
    assert PoliciesOf(policies', listener) == PoliciesOf(policies, listener) + {x};
    assert RulesOk(env, rules, x);
    assert forall p :: p in PoliciesOf(policies, listener) ==> !IsPolicyWith(env.own, policies, listener, role, p);
    assert PolicyTreeOk(env, policies', rules, listener);
    PolicyViewed(env, policies', rules, listener, role, x);
    assert forall r :: ViewRule(env.own, rules, x, r) == NoRule;
    forall other | other != role
      ensures ViewPolicy(env.own, policies', rules, listener, other) == ViewPolicy(env.own, policies, rules, listener, other)
    {
      OtherRolesViewed(env, policies, rules, policies', rules, listener, x, other);
    }
  }

  // ----- the three ways a rule record changes -----

  lemma RuleRewritten(env: Env, rules: Rules, policy: Id, role: Role, r: Id, rule: Rule)
    requires RulesOk(env, rules, policy) && IsRuleWith(env.own, rules, policy, role, r)
    requires rule.parent == rules[r].parent && rule.project == rules[r].project && rule.tags == rules[r].tags
    ensures var rules' := rules[r := rule];
            RulesOk(env, rules', policy) && ViewRule(env.own, rules', policy, role) == HasRule(r, rule) &&
            (forall other :: other != role ==>
              ViewRule(env.own, rules', policy, other) == ViewRule(env.own, rules, policy, other))
  {
    hide RoleRule;
    var rules' := rules[r := rule];
    assert RulesOf(rules', policy) == RulesOf(rules, policy);
    assert RulesOk(env, rules', policy);
    RuleViewed(env, rules', policy, role, r);
    forall other | other != role
      ensures ViewRule(env.own, rules', policy, other) == ViewRule(env.own, rules, policy, other)
    {
      OtherRulesViewed(env, rules, rules', policy, r, other);
    }
  }

  lemma RuleRemoved(env: Env, rules: Rules, policy: Id, role: Role, r: Id)
    requires RulesOk(env, rules, policy) && IsRuleWith(env.own, rules, policy, role, r)
    ensures var rules' := rules - {r};
            RulesOk(env, rules', policy) && ViewRule(env.own, rules', policy, role) == NoRule &&
            (forall other :: other != role ==>
              ViewRule(env.own, rules', policy, other) == ViewRule(env.own, rules, policy, other))
  {
    hide RoleRule;
    var rules' := rules - {r};
    assert RulesOf(rules', policy) == RulesOf(rules, policy) - {r};
    assert RulesOk(env, rules', policy);
    forall q | q in RulesOf(rules', policy) ensures RoleRule(env.own, rules'[q].tags) != Some(role) {
      assert q in RulesOf(rules, policy) && r in RulesOf(rules, policy) && q != r;
    }
    forall other | other != role
      ensures ViewRule(env.own, rules', policy, other) == ViewRule(env.own, rules, policy, other)
    {
      OtherRulesViewed(env, rules, rules', policy, r, other);
    }
  }

  lemma RuleAdded(env: Env, rules: Rules, policy: Id, role: Role, r: Id, rule: Rule)
    requires RulesOk(env, rules, policy) && ViewRule(env.own, rules, policy, role) == NoRule && r !in rules
    requires rule.parent == policy && RuleOk(env, rule) && RoleRule(env.own, rule.tags) == Some(role)
    ensures var rules' := rules[r := rule];
            RulesOk(env, rules', policy) && ViewRule(env.own, rules', policy, role) == HasRule(r, rule) &&
            (forall other :: other != role ==>
              ViewRule(env.own, rules', policy, other) == ViewRule(env.own, rules, policy, other))
  {
    hide RoleRule;
    var rules' := rules[r := rule];
    assert RulesOf(rules', policy) == RulesOf(rules, policy) + {r};
    assert forall q :: q in RulesOf(rules, policy) ==> !IsRuleWith(env.own, rules, policy, role, q);
    assert RulesOk(env, rules', policy);
    RuleViewed(env, rules', policy, role, r);
    forall other | other != role
      ensures ViewRule(env.own, rules', policy, other) == ViewRule(env.own, rules, policy, other)
    {
      OtherRulesViewed(env, rules, rules', policy, r, other);
    }
  }

  lemma OtherRulesViewed(env: Env, rules: Rules, rules': Rules, policy: Id, x: Id, role: Role)
    requires RulesOk(env, rules, policy) && RulesOk(env, rules', policy)
    requires forall r :: r != x ==> (r in rules <==> r in rules') && (r in rules ==> rules[r] == rules'[r])
    requires !IsRuleWith(env.own, rules, policy, role, x) && !IsRuleWith(env.own, rules', policy, role, x)
    ensures ViewRule(env.own, rules', policy, role) == ViewRule(env.own, rules, policy, role)
  {
    hide RoleRule;
    if r :| IsRuleWith(env.own, rules, policy, role, r) {
      assert IsRuleWith(env.own, rules', policy, role, r);
      RuleViewed(env, rules, policy, role, r);
      RuleViewed(env, rules', policy, role, r);
    } else {
      forall r | r != x ensures !IsRuleWith(env.own, rules', policy, role, r) {
        assert !IsRuleWith(env.own, rules, policy, role, r);
      }
    }
  }

  /** A change of one policy's rules, lifted to the whole tree. */
  lemma RulesChanged(env: Env, policies: Policies, rules: Rules, rules': Rules, listener: Id, role: Role, x: Id)
    requires listener != "" && PolicyTreeOk(env, policies, rules, listener)
    requires IsPolicyWith(env.own, policies, listener, role, x)
    requires RulesOk(env, rules', x) && forall p :: p != x ==> SameRules(rules, rules', p)
    ensures PolicyTreeOk(env, policies, rules', listener)
    ensures ViewPolicy(env.own, policies, rules', listener, role) == ViewOf(env.own, policies, rules', x)
    ensures forall other :: other != role ==>
              ViewPolicy(env.own, policies, rules', listener, other) == ViewPolicy(env.own, policies, rules, listener, other)
  {
    hide RolePolicy, RulesOk, PolicyOk;
    forall p | p in PoliciesOf(policies, listener) ensures RulesOk(env, rules', p) {
      if p != x {
        SameRulesViewed(env, rules, rules', p);
      }
    }
    assert PolicyTreeOk(env, policies, rules', listener);
    PolicyViewed(env, policies, rules', listener, role, x);
    forall other | other != role
      ensures ViewPolicy(env.own, policies, rules', listener, other) == ViewPolicy(env.own, policies, rules, listener, other)
    {
      OtherRolesViewed(env, policies, rules, policies, rules', listener, x, other);
    }
  }
}
